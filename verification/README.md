# Mnema: verified model of the archiver

Mnema moves files from a source (a local folder, an iCloud photo library, uploads from a phone) into an
archive kept in three places: an active disk, an independent backup and an encrypted cold store. Only then
may it delete the original. It is built to be killed at any moment. This project models the protocols that
make that safe and proves what they promise over whole runs, with crashes, restarts, lost answers and
interleaved writers as ordinary steps.

`dafny verify dfyconfig.toml` checks everything.

## How it is built

Each stateful protocol is given twice. A machine (`Archive`, `Upload`, `Replica`, `Queue`, `CleanupRun`,
`Audit`, and the tree operations of `Tree`) lists its steps as a datatype of events with a step function;
an event is one stretch of code between two points where the process can die. The invariants and the
theorems over all runs are proved about the machine. Beside it stand classes with methods in the form of the
code (`ArchiveWorkflow.Workflow`, `UploadService.Service`, `ReplicaSync.ChangeServer` and `Enumerator`,
`DurableQueues.DurableQueue`, `CleanupService.Service`, `Audit.ItemSession`, `ProjectedTrees.ProjectedTree`,
`Tiling.RemoteObject`, `Container.Files`). Every method is proved to end in the state the machine's steps
or functions produce, so that what holds of every run holds of the code's own control flow. Failing adapters, network
replies and short reads are arbitrary choices in those methods.

| file | covers |
|---|---|
| `States`, `Audit`, `AuditSessions` | the state graph, transitions with their audit events in one session and in several, startup recovery |
| `Gate` | the deletion gate and its run limits |
| `Archive`, `ArchiveSafety`, `ArchiveDecisions`, `ArchiveStranded`, `ArchiveResume`, `ArchiveStale`, `ArchiveWorkflow` | the archive workflow under crashes |
| `ArchiveSessions`, `ArchiveOverlap` | the archive workflow in several database sessions at once |
| `Upload`, `UploadHistory`, `UploadService` | chunked uploads: append, seal, recovery, reaper |
| `Replica`, `ReplicaSync`, `Cursor` | the change journal, the phone's replica, the cursor text |
| `Queue`, `DurableQueue` | the lease queue |
| `CleanupPlan`, `CleanupPlanning`, `CleanupRun`, `CleanupProof`, `CleanupService`, `CleanupWindow` | the iCloud cleanup plan and its execution |
| `Tree`, `ProjectedTree`, `Names` | the tree shown to the phone, unique names |
| `Tiling`, `Container` | multipart copy ranges, the encrypted container |

## What the models assume

- SHA-256 is an uninterpreted parameter. Nothing is assumed about it; "the same bytes" is said as "the same
  hash" wherever the code compares hashes.
- Database transactions are serialised, and a crash takes a session back to its last commit. Files change at
  once and survive a crash.
- At most one session has an item loaded. `Archive` and `Audit` have one row per item and stand on this: a scan
  (src/mnema/cli.py:129-130), a sync (src/mnema/cli.py:557-568) and the web page's archive button
  (src/mnema/web/app.py:381-383) each load every item, keep their copies across commits
  (src/mnema/jobs/database.py:31), and nothing in the code keeps them apart. `ArchiveSessions` and `AuditSessions`
  give each session its own rows, prove that the assumption is enough, and show what happens without it.
- A source version (`inode:size:mtime_ns`) is never reused and determines the bytes. Without this no check of
  the code can tell an edited source from the archived one.
- Only Mnema writes its stores, except that other files may appear in active storage. `iCloud Photos/` in active
  storage is the photo library: its files are the source objects of library items, only the user's library
  writes there, and no other source has a directory of that name.
- That no commit overwrites a file (`Archive.NothingOverwritten`) is a hypothesis of the theorems about runs, not
  of the machine; `ArchiveSafety.CommitKeepsFilesIffCollisionFree` says exactly when a commit does.
- One request at a time per upload, one answer in flight per enumerator, one cleanup approval at a time.
- Percentages and byte caps use exact arithmetic where the code uses floats. AES-GCM is a key stream and a
  tag function; UUIDs of different things are different.

## Where the code does less than one would want

These are results: in each case the code is modelled as it is, and the condition under which it falls short is
proved, exactly where the text says so, with a run that gets there or the step that does it.

- Two sessions with the same row can delete the last copy: one archives an item, the user replaces the source
  object by one of the same size, another session discovers that, and the first commits its stale row over it
  (`ArchiveOverlap.OverlapDeletes` from every such state, `ArchiveOverlap.TwoSessionsDeleteTheLastCopy` from the empty
  archive). Sessions that never share a row are safe (`ArchiveSessions.SessionsRefine`,
  `ArchiveSessions.SessionsNeverDeleteTheLastCopy`). The audit trail stays whole exactly when no commit is stale
  (`AuditSessions.TrailIntactIff`, `AuditSessions.OverlapBreaksTheTrail`).
- The version check of a delete and its unlink are two calls. What is unlinked is held in all three stores exactly
  when it hashes to the recorded digest (`ArchiveSafety.NeverDeleteTheLastCopy`); bytes written between the two calls
  are lost (`ArchiveSafety.EditBeforeUnlinkIsLost`).
- The archived file of a library item is the user's library file. It holds the recorded bytes exactly as long as
  the library object hashes to the recorded digest (`ArchiveSafety.LibraryFileIsHeldIff`).
- A snapshot or upload that is interrupted leaves its exclusively created temporary file behind, and no later run
  whatever gives the item that copy (`ArchiveStranded.InterruptedCopyStrands`). A run with working adapters reaches
  QUARANTINED exactly when no such leftover and no other bytes sit under the item's key and the active file can
  still be read (`ArchiveResume.FinishIff`); an interrupted run can be resumed exactly when no interruption fell
  inside a copy (`ArchiveResume.ResumeEqualsUninterrupted`).
- Receipts survive a source change, so the gate alone would allow a deletion whose bytes nobody holds
  (`ArchiveStale.StaleReceiptsPassTheGate`); the state graph is what stops it.
- `commit_staged` overwrites a foreign file exactly when one sits at the collision name
  (`ArchiveSafety.CommitKeepsFilesIffCollisionFree`, with an input in `ArchiveSafety.CommitOverwrites`).
- The reaper unlinks before it commits. Acknowledged bytes of an open upload can be lost exactly when it has expired
  (`Upload.BytesCanBeLostIffExpired`), and then it never seals (`Upload.LostBytesNeverSeal`). An append cut off by a
  crash blocks the upload unless the file happens to have the recorded length (`Upload.TornUploadAcceptsIff`).
- A heartbeat that lands after the lease ran out, or a claim separated from its read, can exceed the
  concurrency limits; both conditions are exact (`Queue.HeartbeatKeepsLimitsIff`, `Queue.ClaimKeepsLimitsIff`).
- After an ambiguous reply a committed review stops every delete until deletion is resumed. A crash before that
  commit stops them exactly when the guard was shut already: milestone not approved, relief disabled, deletion
  disabled or the safety lock on (`CleanupWindow.AmbiguityStopsDeletesIff`, `CleanupWindow.NothingIsSentIff`). The open
  case is reached from the empty world (`CleanupWindow.WindowIsReached`).
- An asset that expects no components is eligible for planning but never passes the gate
  (`CleanupPlan.EligibleFactsClearIff`).
- The comment at src/mnema/file_provider/service.py:367-369 says a promoted upload has the name the projection wants.
  It has exactly when its own name does not start with its archive number, or the number is also the suffix that
  makes a taken name unique (`Tree.PromotionAgreesIff`); otherwise the next projection renames it.
- docs/RECOVERY.md:55 says interrupted backups and uploads become FAILED_RETRYABLE; the code resumes them in
  place (src/mnema/worker/recovery.py:30), and so does the model.

## Model

| member | source | states |
|---|---|---|
| States.OnlyPredecessor | src/mnema/domain/states.py:41-98 | between DOWNLOADING and DELETED_FROM_SOURCE a state can be entered only from itself or from the one before it |
| States.WaysIn | src/mnema/domain/states.py:41-98 | the graph read backwards: for every state exactly the states that lead into it |
| Audit.AuditReplay | src/mnema/jobs/state_service.py:12-34 | in one session, across transitions, commits, rollbacks and crashes the durable events of every item are an unbroken chain of allowed edges from DISCOVERED to its durable state; several sessions at once are `AuditSessions.TrailIntactIff` |
| Audit.NothingSkipped | src/mnema/domain/states.py:41-98 | a chain standing on the linear path has, since its last QUEUED, visited every linear state up to there, in order |
| Audit.DeletingWasEarned | src/mnema/domain/states.py:41-98 | in one session, an item durably in DELETING went through every state from QUEUED to READY_FOR_DELETION since it last queued |
| Audit.ItemSession.TransitionItem | src/mnema/jobs/state_service.py:12-34 | state and one event with both states change together, or the transition is invalid and neither does; nothing becomes durable |
| Audit.ItemSession.CommitSession | src/mnema/jobs/database.py:50-60 | a commit makes rows and events durable together and changes neither |
| Audit.ItemSession.RollbackSession | src/mnema/jobs/database.py:50-60 | a rollback returns both to the last commit |
| Audit.ItemSession.RecoverItem | src/mnema/worker/recovery.py:78-115 | an item in DELETING goes to MANUAL_REVIEW, a download or restore to FAILED_RETRYABLE unless its client upload is live, a pending stage stays; each with the one event that says so |
| Audit.ItemSession.ReconcileInterruptedItems | src/mnema/worker/recovery.py:65-116 | startup recovery is one durable transaction: DELETING goes to MANUAL_REVIEW in both modes and nothing else moves in the deletions-only mode; downloads and restores go to FAILED_RETRYABLE exactly when no client upload is live; the three pending states stay and gain one event; every other row keeps its state and its events |
| Audit.RecoveryByState | src/mnema/worker/recovery.py:12-44 | the same state by state, for every place that recovers items |
| AuditSessions.TrailIntactIff | src/mnema/jobs/database.py:29-62 | with any number of sessions, each keeping its own rows across its commits, the durable events of every item are an unbroken chain to its durable state exactly when no commit writes events for a row whose durable state changed since the session loaded or last committed it |
| AuditSessions.CommitIff | src/mnema/jobs/database.py:50-60 | one commit keeps the trails whole exactly when it is not stale |
| AuditSessions.OneSessionPerItemKeepsTrail | src/mnema/jobs/database.py:29-62 | if a row is loaded only while no other session has it, the trails stay whole |
| AuditSessions.DeletingWasEarnedAcrossSessions | src/mnema/domain/states.py:41-98 | without stale commits an item durably in DELETING went through the whole archive path, whichever sessions moved it |
| AuditSessions.OverlapBreaksTheTrail | src/mnema/jobs/database.py:31 | a concrete run of two sessions that leaves two events of one item with the same from-state |
| Gate.ChecksPassMeaning | src/mnema/policies/deletion.py:55-84 | passing every named check and an elapsed quarantine is the same as all copies, health readings and switches being in order |
| Gate.FailedChecks | src/mnema/policies/deletion.py:78 | the messages are exactly those of the checks that did not pass |
| Gate.ChecksAreNamed | src/mnema/policies/deletion.py:55-77 | each message is there exactly when the fact it names is wrong |
| Gate.LimitBlockers | src/mnema/policies/deletion.py:85-94 | each limit has its message exactly when one more file of this size exceeds it, and no message means room in all three |
| Gate.EvaluateDeletionGate | src/mnema/policies/deletion.py:46-95 | deletion is allowed exactly when all facts are clear and the limits leave room; the blockers are exactly the messages of what is wrong |
| ArchiveSafety.CheckpointsHold | src/mnema/domain/workflow.py:116-246 | with one session per item, checkpoint invariant for every interleaving of source edits, discovery, archive steps, deletions, crashes and restarts in which no commit overwrites a file: staged and verified rows have the bytes in staging or active storage, committed rows at their path (a library item: its path is the library file), backed-up rows in the snapshot, cold-verified rows in the cold object |
| ArchiveSafety.NeverDeleteTheLastCopy | src/mnema/domain/workflow.py:333-385 | with one session per item, what Mnema unlinks is held in the active file, the snapshot and the cold object, then and in every later state, exactly when it hashes to the recorded digest, and so it does whenever the object shows the recorded version as it is unlinked |
| ArchiveSafety.OnlyDeleteCallRemoves | src/mnema/adapters/sources/local.py:114-122 | besides the user, only the unlink of an item whose version was checked removes a source object |
| ArchiveDecisions.ClearedIff | src/mnema/domain/workflow.py:268-331 | asked about the facts gathered for an item, the gate allows exactly when every switch, reading, receipt, the quarantine, the active file, the source and the limits are in order, one by one |
| ArchiveDecisions.DecisionWasGiven | src/mnema/domain/workflow.py:268-331 | in every run, when a decision to delete stands, the latest time the gate was asked about that item it saw all of that in order |
| ArchiveDecisions.DeletionsAreDecided | src/mnema/domain/workflow.py:333-385 | in every run, whatever Mnema takes off the source it takes by such a decision on that item |
| ArchiveDecisions.DeletingIsEntered | src/mnema/domain/workflow.py:333-352 | in every run a durable row enters DELETING only from the last stretch of the path, by such a decision, with a source that can delete and shows the recorded object |
| ArchiveDecisions.NothingIsDeletedWhileLocked | src/mnema/policies/deletion.py:55-77 | a run in which every decision was taken with the lock on, deletion disabled or a disk unhealthy deletes nothing |
| ArchiveDecisions.IneligibleIsLeftAlone | src/mnema/domain/workflow.py:54-103 | what the policy refuses whenever it is discovered, and finds unchanged, is never downloaded, copied or decided upon |
| ArchiveSafety.CheckSawTheRecordedVersion | src/mnema/adapters/sources/local.py:117-119 | an item gets as far as the unlink only by a check at which the source showed the recorded version |
| ArchiveSafety.EditBeforeUnlinkIsLost | src/mnema/adapters/sources/local.py:117-121 | bytes written between the version check and the unlink are removed, and none of the item's stores has them |
| ArchiveSafety.LibraryFileIsHeldIff | src/mnema/domain/workflow.py:164-174 | in every run the archived file of an adopted item holds the recorded bytes exactly when the library object is there and hashes to the recorded digest, and so it does while the object shows the recorded version |
| ArchiveSafety.OnlyEditsChangeLibraryFiles | src/mnema/domain/factory.py:89-110 | no import, commit, adoption or deletion of any item changes a library file; only an edit of that file does |
| ArchiveSafety.DownloadFinishSafe | src/mnema/adapters/sources/local.py:77-112 | the torn-read argument: what a finished download stages and hashes is the content of the one version the source showed at both ends, whatever was read in between |
| ArchiveSafety.CommitKeepsFilesIffCollisionFree | src/mnema/adapters/nas/fileops.py:80-117 | committing keeps every file in active storage exactly when no other bytes sit at the derived collision name |
| ArchiveSafety.CommitGoesWhere | src/mnema/adapters/nas/fileops.py:80-117 | a free path is used as it is, a file that holds the bytes is left where it is, anything else sends the bytes to stem, `.mnema-`, twelve characters of the digest and suffix in the same directory |
| ArchiveSafety.TwoVersionsAreKept | src/mnema/adapters/nas/fileops.py:108-113 | two versions committed to one path, with digests that differ in those characters and no foreign file at either name, are both kept with everything that was there |
| Names.CollisionNameKeepsParts | src/mnema/adapters/nas/fileops.py:108-110 | the collision name is the path with `.mnema-` and twelve characters of the digest between stem and suffix |
| Names.CollisionNamesDiffer | src/mnema/adapters/nas/fileops.py:108-110 | for one path, equal collision names mean equal twelve-character prefixes |
| Names.SuffixedKeepsParts | src/mnema/file_provider/service.py:92-94 | a name made unique is stem, a dash, the added characters and the suffix |
| ArchiveSafety.CommitSparesCopyIff | src/mnema/adapters/nas/fileops.py:80-117 | a copy some row relies on survives a commit exactly when the commit goes elsewhere or brings bytes of the same hash |
| ArchiveSafety.CommitOverwrites | src/mnema/adapters/nas/fileops.py:101-113 | a concrete input on which the commit replaces a foreign file at the collision name |
| ArchiveSafety.CommitHoldsBytes | src/mnema/adapters/nas/fileops.py:80-117 | after a commit the path in the receipt holds bytes of the expected hash, whichever branch was taken |
| ArchiveSafety.StepsFollowTheGraph | src/mnema/domain/workflow.py:116-246 | apart from reloading a row after a crash or rollback, every step moves it only along edges the graph allows |
| ArchiveSafety.RestartRecovers | src/mnema/worker/recovery.py:65-116 | after a crash and the startup recovery every committed item is as it was committed, except that a deletion in doubt is in MANUAL_REVIEW and a download or restore in FAILED_RETRYABLE; its files stay |
| ArchiveSafety.SessionEnds | src/mnema/jobs/database.py:50-60 | a commit makes the row durable as it is; a rollback takes it back to the last commit, and with it an item never committed |
| ArchiveResume.FinishIff | src/mnema/domain/workflow.py:195-246 | from LOCAL_COMMITTED a run with working adapters reaches QUARANTINED exactly when no leftover temporary file and no other bytes block the backup or the cold store and a copy still to be made finds the recorded bytes in the active file |
| ArchiveResume.FinishIsRun | src/mnema/domain/workflow.py:195-246 | that run changes only the item: no source, no active file, no other item |
| ArchiveResume.FinishSafe | src/mnema/domain/workflow.py:195-246 | that run keeps the checkpoint invariant, the staged file, digest, path and source identity |
| ArchiveResume.FinishLeavesReceipts | src/mnema/domain/workflow.py:195-246 | an undisturbed run leaves the verification times of its own backup and cold verification and the quarantine it set |
| ArchiveResume.ResumeEqualsUninterrupted | src/mnema/domain/workflow.py:195-246 | after any number of crashes and aborted attempts, also between an effect and its commit, resuming ends in QUARANTINED exactly when no interruption fell inside the writing of a snapshot or cold object, and then with the same digest, path, snapshot and cold object as a crash-free run |
| ArchiveStranded.InterruptedCopyStrands | src/mnema/adapters/backup/filesystem.py:19-30 | a crash, rollback or failure inside the snapshot copy leaves a temporary file after which no run whatever gives the item a snapshot or takes it to LOCAL_BACKUP_VERIFIED; the same for the cold object and COLD_UPLOADED |
| ArchiveStranded.AlwaysAgree | src/mnema/domain/workflow.py:195-246 | in every run, overwriting commits included, a row past a store has its entry there and a copy under way has its temporary file |
| ArchiveStale.StaleReceiptsPassTheGate | src/mnema/domain/workflow.py:268-331 | a concrete run after which the gate allows deletion of a source whose bytes no store holds |
| ArchiveStale.GraphStopsStaleDeletion | src/mnema/domain/workflow.py:346-352 | outside the last stretch of the graph no decision leads to a delete call |
| ArchiveWorkflow.Workflow.Snapshot | src/mnema/adapters/backup/filesystem.py:19-30 | without an exception the snapshot is the one that was there or the active file of the row, never both tried; an exception leaves at most a temporary file, and with a working disk it is raised only over such a leftover or a missing file |
| ArchiveWorkflow.Workflow.Upload | src/mnema/adapters/cold_storage/local.py:32-52 | the same for the cold object: the one that was there or the active file of the row, and an exception leaves at most a temporary file |
| ArchiveWorkflow.Workflow.BackupBlock | src/mnema/domain/workflow.py:198-212 | the backup stage ends committed in LOCAL_BACKUP_VERIFIED with snapshot id and time of this run, and then the snapshot hashes to the recorded digest; or it raises and the row is as it was |
| ArchiveWorkflow.Workflow.UploadBlock | src/mnema/domain/workflow.py:216-225 | the upload stage ends committed in COLD_UPLOADED with the receipt of the object, or raises and the row is as it was |
| ArchiveWorkflow.Workflow.ColdVerifyBlock | src/mnema/domain/workflow.py:226-234 | COLD_VERIFIED and its time are committed only when the cold object of this receipt hashes to the recorded digest; otherwise it raises and nothing changes |
| ArchiveWorkflow.Workflow.ColdArchiveBlock | src/mnema/domain/workflow.py:238-242 | the storage-class change ends committed in COLD_ARCHIVED with its time, and needs a receipt; otherwise it raises and nothing changes |
| ArchiveWorkflow.Workflow.QuarantineBlock | src/mnema/domain/workflow.py:243-246 | a cold-archived item, and no other, is quarantined until the given time, in one commit |
| ArchiveWorkflow.Workflow.ArchiveCommitted | src/mnema/domain/workflow.py:195-246 | from LOCAL_COMMITTED on, archive returns only in QUARANTINED and with working adapters does what an undisturbed run does |
| ArchiveWorkflow.Workflow.BeginBlock | src/mnema/domain/workflow.py:116-128 | exactly eligible, queued, failed, reviewed and changed items are taken to DOWNLOADING, in one commit, with everything else on the row as it was |
| ArchiveWorkflow.Workflow.ClearBlock | src/mnema/domain/workflow.py:129-142 | a leftover partial is removed exactly when the source can still be read; otherwise it raises and nothing changes |
| ArchiveWorkflow.Workflow.CopyChunks | src/mnema/adapters/sources/local.py:83-98 | while the user edits or removes the source between chunks: if the first version is still there at the end, the partial file holds its whole content |
| ArchiveWorkflow.Workflow.Download | src/mnema/adapters/sources/local.py:77-112 | a download ends committed, staged with the digest of the version seen at both ends, or in SOURCE_CHANGED with another version at the source, or raises and leaves the row as it was |
| ArchiveWorkflow.Workflow.DownloadBlock | src/mnema/domain/workflow.py:128-158 | from DOWNLOADING it returns staged and hashed, or in SOURCE_CHANGED because the source was edited meanwhile; other states pass through |
| ArchiveWorkflow.Workflow.VerifyBlock | src/mnema/domain/workflow.py:160-164 | LOCAL_VERIFIED exactly when the staged bytes hash to the recorded digest; otherwise it raises and nothing changes |
| ArchiveWorkflow.Workflow.CommitStaged | src/mnema/adapters/nas/fileops.py:80-117 | raises exactly when the staged bytes, or the library file, are not of recorded size and digest, and then changes nothing; a free path is used as it is, an equal file is left alone, anything else sends the bytes to the collision name, replacing what is there; a library file is adopted where it is |
| ArchiveWorkflow.Workflow.CommitBlock | src/mnema/domain/workflow.py:165-194 | LOCAL_COMMITTED is committed with the path at which the bytes are by then, the original one or the collision name, and nothing else on the row changes |
| ArchiveWorkflow.Workflow.Archive | src/mnema/domain/workflow.py:116-246 | archive from any state, with the source edited meanwhile, is a run of the machine; it returns in QUARANTINED, or in SOURCE_CHANGED only from the download, or raises; states it does not handle stay as they are |
| ArchiveWorkflow.Workflow.DiscoverObject | src/mnema/domain/workflow.py:54-103 | a new row is ELIGIBLE or INELIGIBLE as the policy says and has no receipts; a changed one goes to SOURCE_CHANGED with the new metadata and keeps its receipts; an ineligible one may become eligible; no other item changes |
| ArchiveWorkflow.Workflow.DeletionDecision | src/mnema/domain/workflow.py:268-331 | the decision allows exactly when health, remote, both switches, lock, approval, both receipts, elapsed quarantine, active file, source and the three limits are in order, each said of the readings, row, active file and source themselves |
| ArchiveWorkflow.Workflow.BeginDeletion | src/mnema/domain/workflow.py:333-352 | deletion begins exactly when the decision stands, the source can delete and shows the recorded object, and the row is on the last stretch of the path; DELETING is committed before anything is deleted, and a changed source goes to SOURCE_CHANGED |
| ArchiveWorkflow.Workflow.CallDelete | src/mnema/adapters/sources/local.py:114-122 | the object goes only after its version was the recorded one at the check; the user may edit it before the unlink, and no other source object is touched |
| ArchiveWorkflow.Workflow.Unlink | src/mnema/adapters/sources/local.py:120-122 | removes whatever the source holds under the identifier by then, and nothing else |
| ArchiveWorkflow.Workflow.DeleteTestItem | src/mnema/domain/workflow.py:333-385 | with the source edited meanwhile the whole deletion is a run of the machine; without decision or capability nothing is touched, at most the item's own object goes, and then the row ends ARCHIVED with the time or in MANUAL_REVIEW; when nothing went, the row is as it was, as committed, changed or in review |
| ArchiveSessions.SessionsRefine | src/mnema/jobs/database.py:29-62 | if a row is loaded only while no other session has it, every run of any number of sessions, each with its own copies and merging the columns it changed at commit, is a run of the single-row machine |
| ArchiveSessions.CheckpointsHoldAcrossSessions | src/mnema/domain/workflow.py:116-246 | the checkpoint invariant over every such run |
| ArchiveSessions.SessionsNeverDeleteTheLastCopy | src/mnema/domain/workflow.py:333-385 | over every such run what a session unlinks is held three times, then and later, exactly when it hashes to the recorded digest, and so it does at the recorded version |
| ArchiveSessions.MergeLaws | src/mnema/jobs/database.py:29-62 | a commit writes exactly the columns the session changed: none if it changed none, the row as it has it if the table is as it loaded it, and beside those another session changed |
| ArchiveOverlap.OverlapDeletes | src/mnema/jobs/database.py:31 | from every state in which a session has a cold-archived item loaded, with receipts in place: a same-size replacement discovered by a second session before the first quarantines the item ends in Mnema deleting the new bytes while the stores hold the old ones |
| ArchiveOverlap.TwoSessionsDeleteTheLastCopy | src/mnema/cli.py:129-147 | a run from the empty archive that ends so |
| Upload.UploadsStayCoupled | src/mnema/file_provider/service.py:169-291 | the upload invariant over every run of creates, chunks, completions, seals, reaping, archive work and crashes |
| Upload.CoupledLifecycle | src/mnema/worker/recovery.py:46-58 | an open or sealing upload has its item in DOWNLOADING and recovery leaves it there; a job with its key exists, once, exactly when it is sealed |
| Upload.SealedIsWhatWasSent | src/mnema/file_provider/service.py:236-291 | a sealed upload is byte for byte what was acknowledged, of the size and digest on its row |
| UploadHistory.RowsKeepTheirRequest | src/mnema/file_provider/service.py:169-233 | in every run an upload exists exactly when it was created, with the size, digest and expiry of the first request that did |
| UploadHistory.SealedIsWhatWasAnnounced | src/mnema/file_provider/service.py:236-291 | in every run a sealed upload has as many bytes as its creating request announced, of the digest it declared, if it declared one |
| UploadHistory.AcknowledgedAreTheChunks | src/mnema/file_provider/api.py:341-383 | bytes are acknowledged only at the end of a request that began at the recorded offset before the expiry, and are exactly the chunks that arrived during it |
| UploadHistory.GivenUpOnlyAfterExpiry | src/mnema/file_provider/service.py:393-426 | an open upload is failed, its item set aside for review and its file removed only once it has expired |
| Upload.AcceptedBytesAreOnDisk | src/mnema/file_provider/api.py:341-383 | received size is at most expected size and, whenever the file is there, its first received bytes are the accepted bodies in order; it is there unless the upload has expired or nothing was accepted; without a crash it holds nothing more |
| Upload.SealAgainSucceedsIff | src/mnema/file_provider/service.py:236-291 | sealing again after any interruption reaches SEALED with the accepted bytes staged exactly when the stores still have the file and it agrees with the declared digest |
| Upload.ReapedBytesAreGone | src/mnema/file_provider/service.py:393-426 | a crash between the reaper's unlink and its commit leaves an open, expired upload whose acknowledged bytes are in no store |
| Upload.LostBytesNeverSeal | src/mnema/file_provider/service.py:236-291 | an upload whose acknowledged bytes are in no store reaches SEALED in no later run |
| Upload.BytesCanBeLostIffExpired | src/mnema/file_provider/service.py:393-426 | before the clock moves on, acknowledged bytes of an open upload can be lost exactly when it has expired |
| Upload.TornUploadAcceptsIff | src/mnema/file_provider/api.py:341-383 | after an append died with the process the upload takes a chunk exactly when the file has the recorded content |
| UploadService.Service.CreateUpload | src/mnema/file_provider/service.py:169-233 | a new upload has the announced size and digest, a day to finish, an item already downloading, and nothing received; no other upload changes |
| UploadService.Service.WriteBody | src/mnema/file_provider/api.py:341-383 | a body that fits is written whole; an oversized or broken one truncates the file back |
| UploadService.Service.AppendUpload | src/mnema/file_provider/api.py:341-383 | served exactly when the upload is open, unexpired and not written to, with the next byte due at the offset in row and file; an accepted body grows file, offset and record by just that body, and every refusal leaves the contents and the row as they were |
| UploadService.Service.MoveToStaging | src/mnema/file_provider/service.py:243-275 | exactly when the uploaded file, made first for an empty upload, or else the staged one has the announced size and declared digest, it is in staging, and its hash is carried on; otherwise at most that empty file was made |
| UploadService.Service.SealTransaction | src/mnema/file_provider/service.py:276-291 | sealed row with the hash, staged item and queued job appear together, exactly when the item may be staged; otherwise none does |
| UploadService.Service.SealUpload | src/mnema/file_provider/service.py:236-291 | seals exactly when a store has the accepted bytes and their digest is the declared one, however often interrupted, and then with their hash, their copy in staging and one job; a refusal leaves it sealing |
| UploadService.Service.CompleteUpload | src/mnema/file_provider/api.py:385-407 | a sealed upload is acknowledged again, an incomplete one refused, a complete one sealed |
| UploadService.Service.ReconcileSealingUploads | src/mnema/file_provider/service.py:326-358 | after startup every upload interrupted while sealing is sealed or failed, no other is touched, and one bad upload stops none |
| UploadService.Service.ReapExpiredUploads | src/mnema/file_provider/service.py:393-426 | exactly the open, expired uploads are failed, their files removed and their items put in MANUAL_REVIEW |
| UploadService.Service.RecoverItems | src/mnema/worker/recovery.py:78-115 | startup recovery leaves the items of open and sealing uploads alone; of the others an item in DELETING goes to MANUAL_REVIEW, an interrupted download or restore to FAILED_RETRYABLE, and nothing else changes |
| UploadService.Service.Startup | src/mnema/worker/main.py:58-69 | after the three startup passes no upload is sealing or expired, every sealable one is sealed, and one the client can still send to is as it was |
| Replica.ReplicaAgreesUpToCursor | src/mnema/file_provider/api.py:273-318 | at every moment, with writes, deletes, re-creations, late and lost answers and rebuilt servers interleaved, an item whose last change is at or below the cursor is the same on both sides, present or absent |
| Replica.QuietPullsConverge | ios/MnemaFileProvider/FileProviderEnumerator.swift:51-89 | once writes stop, pulling pages ends with the replica equal to the table, from any reachable state |
| Replica.JournalTellsTheTable | src/mnema/file_provider/service.py:119-127 | an item is in the table exactly when its last change is an upsert, and its metadata version is that change's sequence |
| Replica.TableHoldsLastWrite | src/mnema/file_provider/service.py:119-127 | what the table holds of an item is what was written to it last, in every run |
| Replica.TableHoldsWhatWasWritten | src/mnema/file_provider/service.py:119-127 | in every run the table holds exactly the items written and not removed since, the root excepted, nor lost with a rebuilt server |
| Replica.EntriesSayEnough | src/mnema/file_provider/api.py:296-318 | a page of current items settles every item whose last change lies within it and mentions none that changed before it |
| Replica.StepKeepsInv | src/mnema/file_provider/api.py:273-318 | every server write, request, answer, loss and rebuild keeps the agreement between cursor, replica and answer in flight |
| ReplicaSync.ChangeServer.RecordChange | src/mnema/file_provider/service.py:119-127 | appends one change with the next sequence and stamps the item with it |
| ReplicaSync.ChangeServer.WriteItem | src/mnema/file_provider/service.py:211-232 | one upsert is journaled, and the item holds what was written and the sequence of that change |
| ReplicaSync.ChangeServer.CleanupItem | src/mnema/file_provider/service.py:320-323 | an item that is there goes and one deletion is journaled; an absent item changes nothing |
| ReplicaSync.ChangeServer.Changes | src/mnema/file_provider/api.py:273-318 | a page is the next rows after the cursor, as many as there are up to the limit clamped to 1..1000, each with the item as it is now; its cursor is the last row's, and more is said exactly when rows are left; a cursor of another generation, and no other, demands a reset |
| ReplicaSync.ReportedIsCollected | ios/MnemaFileProvider/FileProviderEnumerator.swift:73-76 | reporting the filtered updates in order gives the same items as the dictionary of the page |
| ReplicaSync.PageShows | ios/MnemaFileProvider/FileProviderEnumerator.swift:51-89 | what merging a page makes of each item, by the changes the page covers |
| ReplicaSync.Enumerator.EnumerateItems | ios/MnemaFileProvider/FileProviderEnumerator.swift:22-36 | the working set becomes exactly the items changed in the first page and still in the table, as they are now, and the anchor the end of that page |
| ReplicaSync.Enumerator.EnumerateChanges | ios/MnemaFileProvider/FileProviderEnumerator.swift:51-89 | item by item: upserted on the page and in the table, as it is there; else deleted on the page, gone, the root excepted; else as before; the anchor moves to the end of the page, and an expired anchor is cleared and reported |
| ReplicaSync.Enumerator.CatchUp | ios/MnemaFileProvider/FileProviderEnumerator.swift:15-102 | the system's loop of enumerations terminates with the replica equal to the table and the anchor at the end of the journal |
| CursorCodec.Decode64OfEncode64 | src/mnema/file_provider/service.py:130-137 | URL-safe base64 decodes to the bytes it encodes |
| CursorCodec.QuadIsBigEndian | src/mnema/file_provider/service.py:130-132 | four digits are the 24 bits of three bytes, most significant first |
| CursorCodec.DigitsInOrder | src/mnema/file_provider/service.py:130-132 | the digits are upper case, lower case, digits, minus and underscore, in order |
| CursorCodec.PaddingIsRecomputed | src/mnema/file_provider/service.py:137 | the padding recomputed from the length is exactly what was stripped |
| CursorCodec.LoadedOfDumped | src/mnema/file_provider/service.py:131-140 | parsing the compact object gives back generation and sequence |
| CursorCodec.CursorRoundTrip | src/mnema/file_provider/service.py:130-145 | for every generation that needs no JSON escape and every sequence, decode after encode returns the pair |
| CursorCodec.CursorsAreDistinct | src/mnema/file_provider/service.py:130-145 | cursors of different places are different texts |
| Queue.LeaseAccounting | src/mnema/jobs/queue.py:43-175 | attempts equal grants and equal owned failures, recoveries, successes and one if running; running exactly when owner and expiry are set; attempts exceed the maximum only by recoveries; dead-lettered only after the maximum |
| Queue.NoGrantIsHandedTwice | src/mnema/jobs/queue.py:76-92 | with reads and claims interleaved no attempt of a job is handed to two workers or twice to one |
| Queue.OwnerHoldsTheNewestGrant | src/mnema/jobs/queue.py:76-92 | the owner of a running job is the worker that was handed its newest attempt |
| Queue.StrangersChangeNothing | src/mnema/jobs/queue.py:94-160 | heartbeat, success and failure of a worker that does not own the lease change nothing but, at most, the error text of an unowned job |
| Queue.FinishedIsAbsorbing | src/mnema/jobs/queue.py:43-175 | a succeeded or dead-lettered job keeps status, attempts and lease for ever |
| Queue.KeysStayUnique | src/mnema/jobs/queue.py:19-41 | one job per idempotency key in every run |
| Queue.PunctualRunsKeepLimits | src/mnema/jobs/queue.py:53-62 | with atomic leases and heartbeats before the expiry, unexpired running jobs never exceed the global or any per-adapter limit |
| Queue.HeartbeatKeepsLimitsIff | src/mnema/jobs/queue.py:94-111 | a heartbeat keeps the limits exactly when the lease was unexpired, renewed for no time, or there is room |
| Queue.ClaimKeepsLimitsIff | src/mnema/jobs/queue.py:76-92 | a claim after its read keeps the limits exactly when its lease is over already or there is still room |
| Queue.LateHeartbeatOverruns | src/mnema/jobs/queue.py:94-111 | a concrete run with one late heartbeat and two running jobs where the limit is one |
| Queue.BackoffGrowsToItsCap | src/mnema/jobs/queue.py:155-159 | the wait starts at the base, never shrinks and stops at 1024 times the base |
| Queue.BackoffDoubles | src/mnema/jobs/queue.py:155-159 | up to the cap each attempt doubles the wait |
| Queue.FailedJobWaits | src/mnema/jobs/queue.py:127-160 | an owned failure with attempts left makes the job wait 2^min(attempts - 1, 10) times the base |
| Queue.RetriesWait | src/mnema/jobs/queue.py:53-75 | a waiting job is handed out to nobody before it is available, whatever else happens in the queue |
| DurableQueues.DurableQueue.Enqueue | src/mnema/jobs/queue.py:19-41 | a known key returns its job and changes nothing; a new one appends a pending job that is available at once, with no attempt made and no lease |
| DurableQueues.DurableQueue.RunningJobs | src/mnema/jobs/queue.py:54-61 | the number of running jobs whose lease ends after now, all and on the adapter |
| DurableQueues.DurableQueue.FindCandidate | src/mnema/jobs/queue.py:53-75 | nothing at a limit, otherwise the waiting job of the adapter that is available first, ties by identifier |
| DurableQueues.DurableQueue.Claim | src/mnema/jobs/queue.py:76-90 | takes the job exactly when it is pending or to be retried: running, owned, one attempt more, leased from the time of the read |
| DurableQueues.DurableQueue.Lease | src/mnema/jobs/queue.py:43-92 | grants nothing exactly when the leases in force reach a limit or no waiting job of the adapter is available; otherwise the job that became available first, ties by identifier, now running for the worker in one more attempt until the lease ends, and no other job changes |
| DurableQueues.DurableQueue.Heartbeat | src/mnema/jobs/queue.py:94-111 | moves the expiry of the owner's running job and changes nothing else; anyone else changes nothing |
| DurableQueues.DurableQueue.Succeed | src/mnema/jobs/queue.py:113-125 | finishes the running job of its owner and clears the lease; anyone else changes nothing |
| DurableQueues.DurableQueue.Fail | src/mnema/jobs/queue.py:127-160 | only the owner's failure counts; it dead-letters the job at the maximum and otherwise makes it available again after 2^min(attempts - 1, 10) times the base, clears the lease and notes the error; a stranger changes nothing, or the error text of an unowned job |
| DurableQueues.DurableQueue.RecoverExpired | src/mnema/jobs/queue.py:162-175 | exactly the running jobs whose lease ended before now go to retry, available at once, with no lease and the error that says so; the count is how many |
| CleanupPlan.EligibleFactsClearIff | src/mnema/domain/icloud_cleanup.py:272-348 | an eligible asset has clear gate facts exactly when the gates are open, relief is enabled and it has a component |
| CleanupPlan.FactsClearIff | src/mnema/domain/icloud_cleanup.py:309-348 | for any asset: the facts are clear exactly when each component has its file, size, digest, snapshot and cold verification, the last went cold a quarantine ago, the gates are open and relief is enabled |
| CleanupPlan.EligibleIsArchived | src/mnema/domain/icloud_cleanup.py:272-306 | an asset is eligible exactly when it is no favourite, not deleted, has its expected components, and each is quarantined or archived with every receipt column, both quarantines over and an active file of recorded size and digest |
| CleanupPlan.PlanIsUnique | src/mnema/domain/icloud_cleanup.py:125-135 | the conditions on a plan leave exactly one |
| CleanupPlan.PlanTakesNoMore | src/mnema/domain/icloud_cleanup.py:125-135 | a plan takes no asset it can do without, none but the first beyond the byte cap, and stops short of the need only when nothing is left, the count is full or the next would go beyond the cap |
| CleanupPlan.SelectAssets | src/mnema/domain/icloud_cleanup.py:125-135 | an oldest-first prefix within the asset cap: every next asset was taken because what came before falls short of the need, and within the byte cap; it stops only for need, cap, count or end |
| CleanupPlan.PlanPassesLimitsIff | src/mnema/policies/deletion.py:85-94 | a plan passes the accumulating limits exactly when its total is within the byte cap, and fails only as a single asset that alone exceeds it |
| CleanupPlan.TriggerMeansNeed | src/mnema/domain/icloud_cleanup.py:99-124 | at the trigger something must be freed, and a plan meets the need exactly when usage after it is at or below the target |
| CleanupPlanning.Candidates | src/mnema/domain/icloud_cleanup.py:110-121 | the candidates are exactly the rows that are archived for good, field by field |
| CleanupPlanning.CandidatesKeepOrder | src/mnema/domain/icloud_cleanup.py:110-121 | candidates stay oldest first and distinct |
| CleanupPlanning.PlanManifest | src/mnema/domain/icloud_cleanup.py:110-181 | there is a plan exactly when some row is archived for good; it is the planned prefix, and each entry carries name, tag, size and receipts of its asset at the moment |
| CleanupPlanning.ExpireManifests | src/mnema/domain/icloud_cleanup.py:435-445 | exactly the overdue pending manifests expire |
| CleanupPlanning.CreateManifest | src/mnema/domain/icloud_cleanup.py:90-185 | a manifest is made exactly with relief enabled, usage at the trigger, nothing pending that is not overdue, some row archived for good and a digest not seen before, and then it is the plan; otherwise nothing but expiry changes |
| CleanupPlanning.PlannedManifestValidatesIff | src/mnema/domain/icloud_cleanup.py:187-243 | planner and gate agree: unchanged, a planned manifest validates as a whole exactly when its total is within the byte cap, at any later time |
| CleanupRun.ValidatedBeforeAnyDelete | src/mnema/domain/icloud_cleanup.py:207-248 | in every run with crashes no delete is sent before every entry of its manifest was validated |
| CleanupRun.CheckedMeansOk | src/mnema/domain/icloud_cleanup.py:207-240 | an entry counts as validated only by a step at which library, eligibility, evidence and gate all agree |
| CleanupRun.EntryOkIff | src/mnema/domain/icloud_cleanup.py:207-240 | an entry is in order exactly when the library shows the asset as planned, the asset is archived for good with the receipts of the plan, relief is enabled and the limits leave room after the entries before it |
| CleanupProof.ExecutionsAreApproved | src/mnema/domain/icloud_cleanup.py:187-243 | whatever the executor is doing in any run, it does under an approval of that run, and as far as it got the entries were validated after it, by its listing and clock |
| CleanupProof.SentMeansProven | src/mnema/domain/icloud_cleanup.py:187-250 | behind every delete call of every run: the approval with digest, expiry, milestone, health, switches and trigger, and after it a validation that saw name, tag, no favourite, the expected components and every receipt, time and file of each |
| CleanupRun.EachEntryIsSentOnce | src/mnema/domain/icloud_cleanup.py:241-270 | at most one delete call per manifest entry ever, and in order |
| CleanupRun.StatusTellsTheTruth | src/mnema/domain/icloud_cleanup.py:350-367 | completed entries are a prefix with at most one unrecorded call behind it; PARTIAL means some completed, MANUAL_REVIEW none, COMPLETED all |
| CleanupWindow.AmbiguityStopsDeletesIff | src/mnema/domain/icloud_cleanup.py:245-256 | after an ambiguous reply nothing is sent until an explicit resume if the review is committed; if the process dies first, exactly when the guard was shut: milestone, relief, deletion or safety lock |
| CleanupWindow.NothingIsSentIff | src/mnema/domain/icloud_cleanup.py:187-204 | from every idle state the runs without a resume send nothing exactly when that guard is shut |
| CleanupWindow.OpenGuardSendsAll | src/mnema/domain/icloud_cleanup.py:187-270 | with the guard open a pending manifest of any length whose entries pass is sent entry by entry |
| CleanupWindow.WindowIsReached | src/mnema/domain/icloud_cleanup.py:245-256 | a concrete run from the empty world: an ambiguous delete, a crash before its review, and another delete sent without anyone resuming deletion |
| CleanupWindow.SinglePasses | src/mnema/domain/icloud_cleanup.py:207-235 | a manifest of one small archived photo passes every check, so the window is not hypothetical |
| CleanupRun.DeletedAssetIsNeverSentAgain | src/mnema/domain/icloud_cleanup.py:257-266 | once an asset's deletion is on record no later call of any manifest is for it |
| CleanupRun.NoSendForMarked | src/mnema/domain/icloud_cleanup.py:245-256 | a step sends at most one delete and never for an asset recorded as deleted |
| CleanupRun.StepKeepsInv | src/mnema/domain/icloud_cleanup.py:187-270 | every step of planning, validation, execution, crash and operator keeps the execution invariant |
| CleanupService.Service.CheckEntry | src/mnema/domain/icloud_cleanup.py:207-235 | accepts an entry exactly when library, asset, components, receipts, relief and limits are in order, said field by field |
| CleanupService.Service.ValidateEntries | src/mnema/domain/icloud_cleanup.py:206-240 | accepts exactly when every entry passes with the usage accumulated before it, and sends nothing |
| CleanupService.Service.Admit | src/mnema/domain/icloud_cleanup.py:187-204 | admits exactly a pending, unexpired manifest of the given digest with milestone, health, deletion enabled, lock off and usage at the trigger |
| CleanupService.Service.RecordEntry | src/mnema/domain/icloud_cleanup.py:257-266 | entry and asset are recorded in one commit, the asset with the time; no other entry and no other asset changes |
| CleanupService.Service.ManualReviewOf | src/mnema/domain/icloud_cleanup.py:350-367 | PARTIAL exactly when an entry completed, and both switches close with it |
| CleanupService.Service.DeleteEntries | src/mnema/domain/icloud_cleanup.py:245-266 | calls are the first entries in order, stopping at the first unclear one |
| CleanupService.Service.Execute | src/mnema/domain/icloud_cleanup.py:187-270 | refuses exactly when a guard or a check fails and then has sent nothing; otherwise completes every entry or stops in review with deletion disabled |
| Tree.EveryItemReachesRoot | src/mnema/file_provider/service.py:429-506 | parent chains are acyclic and end at the root, at the depth the identifier says |
| Tree.CreatedKeeps | src/mnema/file_provider/service.py:211-232 | a new upload is in the inbox under its own name, processing and linked to its archive, and keeps names unique and parents in place; it is refused exactly when it, its archive or a sibling of that name is there |
| Tree.PromotedKeeps | src/mnema/file_provider/service.py:361-376 | promotion keeps (parent, name) unique and parents in place |
| Tree.ProjectKeeps | src/mnema/file_provider/service.py:429-506 | a projection over any archives keeps names unique, parents in place and one item per archive |
| Tree.RemovedKeeps | src/mnema/file_provider/service.py:294-323 | removing an upload takes it and its archive link, records the change and keeps the tree |
| Tree.ProjectionIsFixedPoint | src/mnema/file_provider/service.py:429-506 | a projection that renamed or moved no existing item is a fixed point: run again it changes nothing and records no change |
| Tree.ProjectedAreHome | src/mnema/file_provider/service.py:429-506 | after a projection over any archives every ready one has its file where it belongs, whatever was projected after it: in its folder of the photo library under its own name, or in its provider's collection with its number in front, the name at most made unique by its identifier |
| Tree.FoldersMade | src/mnema/file_provider/service.py:446-472 | walking a library path makes exactly the folders of that path that are missing, each under the one before it |
| Tree.FirstFree | src/mnema/file_provider/service.py:106-116 | the chosen name is one of the candidates and no sibling holds it; none means all are taken |
| Tree.NamesInOrder | src/mnema/file_provider/service.py:97-116 | the wanted name if no sibling has it, else that with the first eight characters of the identifier, else with all of it, else none |
| Tree.PromotionAgreesIff | src/mnema/file_provider/service.py:361-376 | for every name, free or taken: a promoted upload is where projection wants it exactly when its name does not start with its archive number, or is taken while the numbered name is free and is what the suffix rule gives |
| ProjectedTrees.ProjectedTree.BootstrapRoots | src/mnema/file_provider/service.py:63-85 | from nothing it makes the six roots; where they exist it changes and records nothing |
| ProjectedTrees.ProjectedTree.UniqueChildName | src/mnema/file_provider/service.py:97-116 | the wanted name if no sibling has it, else the one with eight characters of the identifier, else the one with all of it, else none |
| ProjectedTrees.ProjectedTree.PromoteUpload | src/mnema/file_provider/service.py:361-376 | a finished upload that is not ready goes to the uploads collection, ready, under a free name that starts with its archive number or is derived from such a one; nothing else changes; it is refused only when siblings have all three names, and then nothing changes at all |
| ProjectedTrees.ProjectedTree.PlaceFolders | src/mnema/file_provider/service.py:446-472 | makes exactly the missing folders of a library path, each under the one before it, and returns the last; it stops only at a folder for which siblings have all three names |
| ProjectedTrees.ProjectedTree.PlaceFile | src/mnema/file_provider/service.py:473-505 | the archive has one file, under the given parent, with a free name made for it; every other item is as it was, and a change is recorded exactly when something changed; refused only when siblings have all three names |
| ProjectedTrees.ProjectedTree.ProjectArchive | src/mnema/file_provider/service.py:436-505 | a ready archive ends where it belongs; it is refused only for an unsafe path, or a folder or file that no name is left for; one that is not ready changes nothing |
| ProjectedTrees.ProjectedTree.ProjectVerifiedArchives | src/mnema/file_provider/service.py:429-506 | keeps the tree, puts the file of every ready archive where it belongs, rolls back on an exception, and a run that reports nothing projected is a fixed point |
| Tiling.PartSize | src/mnema/adapters/cold_storage/s3.py:182 | the part size is at least 64 MiB and 10,000 parts of it cover the object |
| Tiling.LeastPartSize | src/mnema/adapters/cold_storage/s3.py:182 | it is 64 MiB unless 10,000 such parts are too few, and then the least size that is enough |
| Tiling.RangesTile | src/mnema/adapters/cold_storage/s3.py:192-193 | ranges are contiguous and disjoint, cover exactly the object, and all but the last have the full part size |
| Tiling.AtMostMaxParts | src/mnema/adapters/cold_storage/s3.py:182-193 | there are never more than 10,000 parts |
| Tiling.EachByteOnce | src/mnema/adapters/cold_storage/s3.py:192-193 | each byte is in exactly one range |
| Tiling.JoinedIsContent | src/mnema/adapters/cold_storage/s3.py:192-215 | the ranges read in order give back the object |
| Tiling.RemoteObject.MultipartArchiveCopy | src/mnema/adapters/cold_storage/s3.py:174-224 | the copy keeps the bytes, changes the storage class exactly on success, and leaves an open upload exactly when it failed and the abort failed too |
| Container.MaskedSplit | src/mnema/adapters/cold_storage/crypto.py:22-23 | ciphering in chunks is ciphering the whole, wherever the chunks are cut |
| Container.SealedLayout | src/mnema/adapters/cold_storage/crypto.py:19-25 | the container is 34 bytes longer, with nonce, ciphertext and tag where decryption reads them |
| Container.SealedAt | src/mnema/adapters/cold_storage/crypto.py:19-25 | magic at 0, nonce at 6, ciphertext at 18, and the tag of that ciphertext in the last sixteen bytes |
| Container.XorBitsAre | src/mnema/adapters/cold_storage/crypto.py:22-23 | bit by bit, the ciphertext is the plaintext flipped where the key stream has a one |
| Container.RoundTrip | src/mnema/adapters/cold_storage/crypto.py:14-48 | decrypting what was encrypted returns the plaintext, for every plaintext, key and nonce |
| Container.OnlyContainersOpen | src/mnema/adapters/cold_storage/crypto.py:28-48 | decryption accepts exactly the containers of the plaintext it returns |
| Container.ErrorsInOrder | src/mnema/adapters/cold_storage/crypto.py:28-48 | what is wrong with a container is found in this order: too short, no magic, no key, a tag that is not of this ciphertext |
| Container.Files.EncryptFile | src/mnema/adapters/cold_storage/crypto.py:14-25 | the streamed result does not depend on how reads are cut; any error leaves the files alone |
| Container.Files.DecryptFile | src/mnema/adapters/cold_storage/crypto.py:28-48 | a good container is restored whole, each way it can be bad has its own error, and a source that shrinks while it is read leaves a proper prefix of the plaintext |

## Left out

- Host administration, installer, Compose rendering, release update and rollback: subprocess and file plumbing.
- Web pages, Telegram bot, CLI output and the SwiftUI app; only how `gates_ready` is derived is used.
- Authentication, JWT, pairing, Cloudflare middleware, redaction: library calls or one-branch checks.
- Kopia, rclone, boto3 and pyicloud: stores that may fail, or take effect and lose the reply.
- Restoring items (`restore_local`, `restore_remote`, RESTORING states beyond the graph), Glacier retrieval.
- The admission checks of `create_upload` (size limit, free space, spelling of the declared digest, file name).
- `refresh_inventory` mapping, storage and SMART health, free-space reserves, path and symlink resolution, byte-range downloads, listing of children.
- The archive effects of `cleanup_e2e_upload`, which unlinks staged bytes before it commits: only its removal of the item is modelled, in `Replica` and `Tree`.
- The worker's polling and heartbeat tasks as asyncio code: their calls are steps of `Queue`, `Upload` and `Archive` in any order; only the order of the startup passes is modelled as such.
- ArchiveWorkflow.Workflow.DeleteTestItem: the source is edited before the version check and between check and unlink; edits between the decision and the call are steps of the machine.
- ArchiveSafety.NeverDeleteTheLastCopy: requires that no commit overwrote a file, and stands on one session per item; `ArchiveSessions` has the version over several sessions and `ArchiveOverlap` the run that breaks it.
- ArchiveSafety.CheckpointsHold: requires that no commit overwrites a file at a collision name or in the library; when one does, and which copies that costs, is proved exactly. A committed library item is promised its path, not its bytes; `ArchiveSafety.LibraryFileIsHeldIff` says when it has them.
- ArchiveSafety.CheckpointsHold: the cold object is represented by the bytes it decrypts to; that the container returns them is `Container.RoundTrip`.
- ArchiveResume.ResumeEqualsUninterrupted: supposes that between interruption and resumption the item is neither rediscovered nor deleted, its library file is not edited and no commit overwrites a file.
- ArchiveWorkflow.Workflow.Snapshot: a library file that the user edits while it is copied is read as it is at the end of the copy; the hash check after it refuses every other outcome too.
- ArchiveSessions.SessionsRefine: a session may drop a row at any time, and a column that a session changes and changes back between two commits counts as unchanged; sessions of other tables are not modelled.
- Upload.AcceptedBytesAreOnDisk: does not promise that the file of an expired upload is there, because the reaper may have unlinked it.
- Replica.ReplicaAgreesUpToCursor: the modification time and the environment-dependent capability of an item are not part of its payload.
- CursorCodec.CursorRoundTrip: covers generations json.dumps writes without escapes; the decoder reads objects of unescaped strings and integers without white space, not every text json.loads and base64 would take.
- Queue.PunctualRunsKeepLimits: the limits are the same at every lease, as the worker's settings are.
- CleanupPlanning.CreateManifest: the inventory rows and the manifest digest are inputs, because the query and the hash of the JSON text are foreign code; evidence is compared itself rather than by its digest.
- Tree.ProjectionIsFixedPoint: identifiers of different folders, archives and uploads are different, as UUIDs are taken to be.
- Tree.PromotionAgreesIff: identifiers have the 36 characters of a UUID and archive numbers fit a 64-bit integer, as the database's do.
- Tiling.RemoteObject.MultipartArchiveCopy: listing and clearing uploads that a failed abort left open is not part of the code, nor of the model.
- Container.Files.DecryptFile: after a wrong tag or an early end the written plaintext stays, as in the code.
- Timezone-naive timestamps, float rounding of percentages and of `math.ceil(size / 10000)`, log and audit texts.
