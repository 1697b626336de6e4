/** The archive workflow as a machine of crash-separated steps (src/mnema/domain/workflow.py).

    A row exists twice: as the one session that has it sees it, and as last committed; rows that
    several sessions have are in `ArchiveSessions`. The staging, active, backup, cold and source
    stores change at once and survive a crash. Each step is one stretch of code between two points
    where the process can die. */
module Archive {
  import opened Basics
  import opened States
  import opened Gate
  import opened Names
  import Audit

  type ItemId = nat
  type Version = string

  /** A source object lies in a directory of its own, or is a file of the photo library, which is a
      directory of active storage: there the source object and the archived file are one file. */
  datatype SourceId = Separate(name: string) | Library(name: string)

  const LIBRARY: Path := "iCloud Photos/"

  function LibraryPath(name: string): Path { LIBRARY + name }

  predicate InLibrary(p: Path) { LIBRARY <= p }

  function LibraryName(p: Path): string
    requires InLibrary(p)
  {
    p[|LIBRARY|..]
  }

  datatype SourceObject = SourceObject(path: Path, modified: int, version: Version, content: Bytes)

  datatype Row = Row(
    state: ArchiveState,
    sourceId: SourceId,
    originalPath: Path,
    originalSize: nat,
    originalModified: int,
    sourceVersion: Version,
    sha: Option<Digest>,
    nasPath: Option<Path>,
    snapshotId: Option<ItemId>,
    kopiaVerifiedAt: Option<int>,
    remote: Option<ItemId>,
    remoteVerifiedAt: Option<int>,
    coldArchivedAt: Option<int>,
    quarantineExpiresAt: Option<int>,
    deletedAt: Option<int>)

  /** What the running process holds in local variables about an item. */
  datatype Work =
    | Idle
    | Transferring(before: Version)
    | Moved(path: Path)
    | CopyingSnapshot
    | CopyingObject
    | DeleteReady
    | DeleteChecked
    | DeleteDone

  /** An item: its row twice, and the files that are kept under its id alone. `staged` is
      `{id}.partial`; `snapshot` and `coldCopy` are the store entries keyed `item-{id}`, each
      with the temporary file its adapter writes first. The cold object is represented by
      what it decrypts to. */
  datatype Item = Item(
    mem: Row,
    db: Option<Row>,
    staged: Option<Bytes>,
    snapshot: Option<Bytes>,
    snapshotPartial: bool,
    coldCopy: Option<Bytes>,
    coldPartial: bool,
    work: Work,
    decision: bool)

  /** What items share: active storage, the source, and every version ever seen there. */
  datatype Env = Env(
    active: map<Path, Bytes>,
    sources: map<SourceId, SourceObject>,
    seen: set<(SourceId, Version)>)

  /** A source object Mnema deleted: its bytes, and the active file and digest that stood for it. */
  datatype Deletion = Deletion(item: ItemId, path: Path, digest: Digest, content: Bytes)

  datatype World = World(env: Env, items: map<ItemId, Item>, log: seq<Deletion>)

  const EMPTY_WORLD := World(Env(map[], map[], {}), map[], [])

  /** The caller's readings for one deletion decision. */
  datatype GateContext = GateContext(
    activeDiskHealthy: bool,
    backupDiskHealthy: bool,
    storageDevicesDiffer: bool,
    sqliteIntegrityHealthy: bool,
    remoteAvailable: bool,
    globalDeletionEnabled: bool,
    sourceDeletionEnabled: bool,
    safetyLock: bool,
    manualApprovalRequired: bool,
    manualApprovalGranted: bool,
    usage: DeletionRunUsage,
    limits: DeletionLimits,
    now: int)

  /** The steps from LOCAL_COMMITTED to QUARANTINED. */
  datatype ProtectStep =
    | BackupPending
    | SnapshotBegin
    | SnapshotPublish
    | BackupConfirm(at: int)
    | ColdPending
    | UploadBegin
    | UploadPublish
    | ColdRecord
    | ColdVerify(at: int)
    | ArchivePending
    | ColdArchive(at: int)
    | Quarantine(until: int)

  /** Discovery of a known item, and archive up to LOCAL_COMMITTED. */
  datatype StageStep =
    | DiscoverKnown(eligible: bool)
    | ArchiveBegin
    | ClearStaged
    | DownloadStart
    | DownloadChunk(count: nat, torn: Bytes)
    | DownloadFinish
    | Abort
    | VerifyStaged
    | CommitRow

  /** The end of a deletion, and what a session or a restart does to a row. */
  datatype SettleStep =
    | DeleteRecord(at: int)
    | DeleteAmbiguous
    | Commit
    | Recover

  /** What happens around the items, and the discovery of a new one. */
  datatype OutsideStep =
    | SourceWrite(sid: SourceId, obj: SourceObject)
    | SourceRemove(sid: SourceId)
    | Import(path: Path, content: Bytes)
    | Crash
    | DiscoverNew(i: ItemId, sid: SourceId, eligible: bool)

  datatype Event =
    | Outside(outside: OutsideStep)
    | Stage(i: ItemId, stage: StageStep)
    | CommitFile(i: ItemId)
    | Protect(i: ItemId, protect: ProtectStep)
    | Decide(i: ItemId, ctx: GateContext)
    | DeleteBegin(i: ItemId, canDelete: bool)
    | DeleteCheck(i: ItemId)
    | DeleteCall(i: ItemId)
    | Settle(i: ItemId, settle: SettleStep)
    | Rollback(i: ItemId)

  // ----- Pieces of the source that only compute -----

  predicate SourceMatches(r: Row, obj: SourceObject) {
    && obj.path == r.originalPath
    && |obj.content| == r.originalSize
    && obj.modified == r.originalModified
    && obj.version == r.sourceVersion
  }

  predicate Held(h: Hash, active: map<Path, Bytes>, p: Path, d: Digest) {
    p in active && h(active[p]) == d
  }

  /** Where commit_staged puts verified bytes: the path itself when it is free or already
      holds them, the collision name otherwise. */
  function CommitTarget(h: Hash, active: map<Path, Bytes>, path: Path, d: Digest, size: nat): Path {
    if path in active && !(|active[path]| == size && h(active[path]) == d)
    then CollisionName(path, d) else path
  }

  /** Active storage after commit_staged; an equal file at the path is left alone. */
  function CommittedActive(h: Hash, active: map<Path, Bytes>, path: Path, d: Digest, content: Bytes): map<Path, Bytes> {
    var target := CommitTarget(h, active, path, d, |content|);
    if target == path && path in active then active else active[target := content]
  }

  /** No other bytes sit at the name commit_staged would rename onto. */
  predicate CollisionFree(h: Hash, active: map<Path, Bytes>, path: Path, d: Digest, content: Bytes) {
    var target := CommitTarget(h, active, path, d, |content|);
    target == path || target !in active || active[target] == content
  }

  function Facts(h: Hash, env: Env, r: Row, ctx: GateContext): DeletionFacts {
    var present := r.nasPath.Some? && r.nasPath.value in env.active;
    DeletionFacts(
      localExists := present,
      localSizeMatches := present && |env.active[r.nasPath.value]| == r.originalSize,
      localSha256Exists := r.sha.Some?,
      localSha256Matches := present && r.sha.Some? && h(env.active[r.nasPath.value]) == r.sha.value,
      kopiaVerified := r.kopiaVerifiedAt.Some?,
      remoteVerified := r.remoteVerifiedAt.Some?,
      quarantineExpiresAt := r.quarantineExpiresAt,
      sourceExists := r.sourceId in env.sources,
      sourceUnchanged := r.sourceId in env.sources && SourceMatches(r, env.sources[r.sourceId]),
      sourceIdentityMatches := r.sourceId in env.sources,
      activeDiskHealthy := ctx.activeDiskHealthy,
      backupDiskHealthy := ctx.backupDiskHealthy,
      storageDevicesDiffer := ctx.storageDevicesDiffer,
      sqliteIntegrityHealthy := ctx.sqliteIntegrityHealthy,
      remoteAvailable := ctx.remoteAvailable,
      globalDeletionEnabled := ctx.globalDeletionEnabled,
      sourceDeletionEnabled := ctx.sourceDeletionEnabled,
      safetyLock := ctx.safetyLock,
      manualApprovalRequired := ctx.manualApprovalRequired,
      manualApprovalGranted := ctx.manualApprovalGranted)
  }

  predicate GateSaysYes(h: Hash, env: Env, r: Row, ctx: GateContext) {
    GateOpen(Facts(h, env, r, ctx), ctx.usage, ctx.limits, r.originalSize, ctx.now)
  }

  // ----- Steps on one item -----

  function Saved(it: Item, r: Row): Item {
    it.(mem := r, db := Some(r), work := Idle)
  }

  predicate At(it: Item, s: ArchiveState) {
    it.work.Idle? && it.mem.state == s
  }

  function NewRow(sid: SourceId, obj: SourceObject, eligible: bool): Row {
    Row(if eligible then ELIGIBLE else Ineligible, sid, obj.path, |obj.content|, obj.modified, obj.version,
        None, None, None, None, None, None, None, None, None)
  }

  /** A changed source moves the row to SOURCE_CHANGED and refreshes its metadata; the
      receipts of the earlier copy stay on the row. */
  function Rediscovered(r: Row, obj: SourceObject, eligible: bool): Row {
    if !SourceMatches(r, obj) then
      r.(state := SourceChanged, originalPath := obj.path, originalSize := |obj.content|,
         originalModified := obj.modified, sourceVersion := obj.version)
    else if r.state.Ineligible? then r.(state := if eligible then ELIGIBLE else Ineligible)
    else r
  }

  function StageItem(h: Hash, env: Env, it: Item, s: StageStep): Item {
    var r := it.mem;
    match s
    case DiscoverKnown(eligible) =>
      if it.work.Idle? && r.sourceId in env.sources
      then it.(mem := Rediscovered(r, env.sources[r.sourceId], eligible)) else it
    case ArchiveBegin =>
      if it.work.Idle? && (r.state == ELIGIBLE || r.state == QUEUED || FailureTarget(r.state))
      then Saved(it, r.(state := DOWNLOADING)) else it
    case ClearStaged =>
      if At(it, DOWNLOADING) && it.staged.Some? && r.sourceId in env.sources
      then it.(staged := None) else it
    case DownloadStart =>
      if At(it, DOWNLOADING) && it.staged.None? && r.sourceId in env.sources
      then it.(staged := Some([]), work := Transferring(env.sources[r.sourceId].version)) else it
    case DownloadChunk(count, torn) =>
      if it.work.Transferring? && it.staged.Some? then
        if r.sourceId in env.sources && env.sources[r.sourceId].version == it.work.before then
          var content := env.sources[r.sourceId].content;
          var from := |it.staged.value|;
          if from + count <= |content|
          then it.(staged := Some(it.staged.value + content[from..from + count])) else it
        else it.(staged := Some(it.staged.value + torn))
      else it
    case DownloadFinish =>
      if !it.work.Transferring? || it.staged.None? then it
      else if r.sourceId !in env.sources then it.(work := Idle)
      else if env.sources[r.sourceId].version != it.work.before then Saved(it, r.(state := SourceChanged))
      else if |it.staged.value| < |env.sources[r.sourceId].content| then it
      else Saved(it, r.(sha := Some(h(it.staged.value)), state := LOCAL_STAGED))
    case Abort => it.(work := Idle)
    case VerifyStaged =>
      if At(it, LOCAL_STAGED) && it.staged.Some? && r.sha == Some(h(it.staged.value))
      then Saved(it, r.(state := LOCAL_VERIFIED)) else it
    case CommitRow =>
      if it.work.Moved? then Saved(it, r.(nasPath := Some(it.work.path), state := LOCAL_COMMITTED)) else it
  }

  /** commit_staged raises unless the staged bytes still have the recorded size and hash. */
  predicate CanCommitFile(h: Hash, it: Item) {
    && At(it, LOCAL_VERIFIED) && it.mem.sourceId.Separate?
    && it.staged.Some? && it.mem.sha == Some(h(it.staged.value))
    && |it.staged.value| == it.mem.originalSize
  }

  /** Adoption of a library file, which already lies in active storage. */
  predicate CanAdopt(h: Hash, env: Env, it: Item) {
    && At(it, LOCAL_VERIFIED) && it.mem.sourceId.Library? && it.staged.Some?
    && it.mem.originalPath in env.active
    && |env.active[it.mem.originalPath]| == it.mem.originalSize
    && it.mem.sha == Some(h(env.active[it.mem.originalPath]))
  }

  function ProtectItem(h: Hash, active: map<Path, Bytes>, i: ItemId, it: Item, step: ProtectStep): Item {
    var r := it.mem;
    var readable := r.nasPath.Some? && r.nasPath.value in active;
    match step
    case BackupPending =>
      if At(it, LOCAL_COMMITTED) then Saved(it, r.(state := LOCAL_BACKUP_PENDING)) else it
    case SnapshotBegin =>
      if At(it, LOCAL_BACKUP_PENDING) && it.snapshot.None? && !it.snapshotPartial && readable
      then it.(snapshotPartial := true, work := CopyingSnapshot) else it
    case SnapshotPublish =>
      if it.work.CopyingSnapshot? && readable
      then it.(snapshot := Some(active[r.nasPath.value]), snapshotPartial := false, work := Idle) else it
    case BackupConfirm(at) =>
      if At(it, LOCAL_BACKUP_PENDING) && it.snapshot.Some? && r.sha == Some(h(it.snapshot.value))
      then Saved(it, r.(snapshotId := Some(i), kopiaVerifiedAt := Some(at), state := LOCAL_BACKUP_VERIFIED))
      else it
    case ColdPending =>
      if At(it, LOCAL_BACKUP_VERIFIED) then Saved(it, r.(state := COLD_UPLOAD_PENDING)) else it
    case UploadBegin =>
      if At(it, COLD_UPLOAD_PENDING) && it.coldCopy.None? && !it.coldPartial && readable
      then it.(coldPartial := true, work := CopyingObject) else it
    case UploadPublish =>
      if it.work.CopyingObject? && readable
      then it.(coldCopy := Some(active[r.nasPath.value]), coldPartial := false, work := Idle) else it
    case ColdRecord =>
      if At(it, COLD_UPLOAD_PENDING) && it.coldCopy.Some?
      then Saved(it, r.(remote := Some(i), state := COLD_UPLOADED)) else it
    case ColdVerify(at) =>
      if At(it, COLD_UPLOADED) && r.remote == Some(i) && it.coldCopy.Some? && r.sha == Some(h(it.coldCopy.value))
      then Saved(it, r.(remoteVerifiedAt := Some(at), state := COLD_VERIFIED)) else it
    case ArchivePending =>
      if At(it, COLD_VERIFIED) then Saved(it, r.(state := COLD_ARCHIVE_PENDING)) else it
    case ColdArchive(at) =>
      if At(it, COLD_ARCHIVE_PENDING) && r.remote.Some?
      then Saved(it, r.(coldArchivedAt := Some(at), state := COLD_ARCHIVED)) else it
    case Quarantine(until) =>
      if At(it, COLD_ARCHIVED)
      then Saved(it, r.(quarantineExpiresAt := Some(until), state := QUARANTINED)) else it
  }

  /** The transitions of delete_test_item up to its commit, when all of them are valid. */
  predicate CanReachDeleting(s: ArchiveState) {
    s == QUARANTINED || s == READY_FOR_REVALIDATION || ValidTransition(s, DELETING)
  }

  function SettleItem(it: Item, s: SettleStep): Item {
    match s
    case DeleteRecord(at) =>
      if it.work.DeleteDone?
      then it.(mem := it.mem.(deletedAt := Some(at), state := ARCHIVED), work := Idle) else it
    case DeleteAmbiguous =>
      if it.work.DeleteReady? || it.work.DeleteChecked? || it.work.DeleteDone?
      then it.(mem := it.mem.(state := ManualReview), work := Idle) else it
    case Commit => if it.work.Idle? then it.(db := Some(it.mem)) else it
    case Recover =>
      if it.work.Idle? && it.db == Some(it.mem)
      then Saved(it, it.mem.(state := Audit.Recovered(it.mem.state, false, false))) else it
  }

  /** The item as a process finds it after its session is gone. */
  function Reloaded(it: Item): Item
    requires it.db.Some?
  {
    it.(mem := it.db.value, work := Idle, decision := false)
  }

  // ----- Steps on the world -----

  function Put(w: World, i: ItemId, it: Item): World {
    w.(items := w.items[i := it])
  }

  function RollbackItem(w: World, i: ItemId): World
    requires i in w.items
  {
    if w.items[i].db.Some? then Put(w, i, Reloaded(w.items[i])) else w.(items := w.items - {i})
  }

  /** The source after the user wrote an object; a version is never used twice. Writing a library file
      writes active storage. */
  function SourceWritten(env: Env, sid: SourceId, obj: SourceObject): Env {
    if (sid, obj.version) in env.seen || (sid.Library? && obj.path != LibraryPath(sid.name)) then env
    else
      Env(if sid.Library? then env.active[obj.path := obj.content] else env.active,
          env.sources[sid := obj], env.seen + {(sid, obj.version)})
  }

  function SourceRemoved(env: Env, sid: SourceId): Env {
    env.(active := if sid.Library? then env.active - {LibraryPath(sid.name)} else env.active,
         sources := env.sources - {sid})
  }

  function OutsideWorld(w: World, o: OutsideStep): World {
    match o
    case SourceWrite(sid, obj) => w.(env := SourceWritten(w.env, sid, obj))
    case SourceRemove(sid) => w.(env := SourceRemoved(w.env, sid))
    case Import(path, content) =>
      if path in w.env.active || InLibrary(path) then w
      else w.(env := w.env.(active := w.env.active[path := content]))
    case Crash =>
      w.(items := map i | i in w.items && w.items[i].db.Some? :: Reloaded(w.items[i]))
    case DiscoverNew(i, sid, eligible) =>
      if i in w.items || sid !in w.env.sources || (exists j :: j in w.items && w.items[j].mem.sourceId == sid) then w
      else Put(w, i, Item(NewRow(sid, w.env.sources[sid], eligible), None,
                          None, None, false, None, false, Idle, false))
  }

  function CommitFileStep(h: Hash, w: World, i: ItemId): World
    requires i in w.items
  {
    var it := w.items[i];
    var r := it.mem;
    if CanAdopt(h, w.env, it) then Put(w, i, it.(staged := None, work := Moved(r.originalPath)))
    else if CanCommitFile(h, it) then
      var target := CommitTarget(h, w.env.active, r.originalPath, r.sha.value, |it.staged.value|);
      var active := CommittedActive(h, w.env.active, r.originalPath, r.sha.value, it.staged.value);
      World(w.env.(active := active), w.items[i := it.(staged := None, work := Moved(target))], w.log)
    else w
  }

  function DeleteBeginStep(w: World, i: ItemId, canDelete: bool): World
    requires i in w.items
  {
    var it := w.items[i];
    var r := it.mem;
    // the library's adapter cannot delete, whatever the caller says
    if !it.work.Idle? || !canDelete || r.sourceId.Library? || !it.decision || r.sourceId !in w.env.sources then w
    else if !SourceMatches(r, w.env.sources[r.sourceId]) then
      Put(w, i, it.(mem := r.(state := SourceChanged), decision := false))
    else if CanReachDeleting(r.state) then
      Put(w, i, Saved(it, r.(state := DELETING)).(work := DeleteReady))
    else RollbackItem(w, i)
  }

  /** The adapter's delete looks at the version first. */
  function DeleteCheckStep(w: World, i: ItemId): World
    requires i in w.items
  {
    var it := w.items[i];
    var r := it.mem;
    if !it.work.DeleteReady? then w
    else if r.sourceId !in w.env.sources then Put(w, i, it.(mem := r.(state := ManualReview), work := Idle))
    else if w.env.sources[r.sourceId].version != r.sourceVersion then
      Put(w, i, it.(mem := r.(state := SourceChanged), work := Idle))
    else Put(w, i, it.(work := DeleteChecked))
  }

  /** Then it unlinks whatever is there by now. */
  function DeleteCallStep(w: World, i: ItemId): World
    requires i in w.items
  {
    var it := w.items[i];
    var r := it.mem;
    if !it.work.DeleteChecked? then w
    else if r.sourceId !in w.env.sources then Put(w, i, it.(mem := r.(state := ManualReview), work := Idle))
    else
      World(w.env.(sources := w.env.sources - {r.sourceId}),
            w.items[i := it.(work := DeleteDone)],
            w.log + [DeletionOf(w, i, r)])
  }

  function DeletionOf(w: World, i: ItemId, r: Row): Deletion
    requires r.sourceId in w.env.sources
  {
    Deletion(i, if r.nasPath.Some? then r.nasPath.value else "", if r.sha.Some? then r.sha.value else "",
             w.env.sources[r.sourceId].content)
  }

  /** One step. A step whose guard fails is an exception that changes nothing durable. */
  function Step(h: Hash, w: World, e: Event): World {
    if e.Outside? then OutsideWorld(w, e.outside)
    else if e.i !in w.items then w
    else
      var it := w.items[e.i];
      match e
      case Stage(i, s) => Put(w, i, StageItem(h, w.env, it, s))
      case CommitFile(i) => CommitFileStep(h, w, i)
      case Protect(i, p) => Put(w, i, ProtectItem(h, w.env.active, i, it, p))
      case Decide(i, ctx) =>
        if it.work.Idle? then Put(w, i, it.(decision := GateSaysYes(h, w.env, it.mem, ctx))) else w
      case DeleteBegin(i, canDelete) => DeleteBeginStep(w, i, canDelete)
      case DeleteCheck(i) => DeleteCheckStep(w, i)
      case DeleteCall(i) => DeleteCallStep(w, i)
      case Settle(i, t) => Put(w, i, SettleItem(it, t))
      case Rollback(i) => RollbackItem(w, i)
  }

  function Run(h: Hash, w: World, events: seq<Event>): World {
    if events == [] then w else Step(h, Run(h, w, events[..|events| - 1]), events[|events| - 1])
  }

  /** A commit may go here: nothing else is lost, and the library, which only its importer writes, is left
      alone. */
  predicate TargetFree(h: Hash, active: map<Path, Bytes>, path: Path, d: Digest, content: Bytes) {
    CollisionFree(h, active, path, d, content) && !InLibrary(CommitTarget(h, active, path, d, |content|))
  }

  /** The event commits a file over other bytes, or into the library. */
  predicate Overwrites(h: Hash, w: World, e: Event) {
    && e.CommitFile? && e.i in w.items && CanCommitFile(h, w.items[e.i])
    && var it := w.items[e.i];
    !TargetFree(h, w.env.active, it.mem.originalPath, it.mem.sha.value, it.staged.value)
  }

  predicate NothingOverwritten(h: Hash, w: World, events: seq<Event>) {
    events == []
    || (NothingOverwritten(h, w, events[..|events| - 1])
        && !Overwrites(h, Run(h, w, events[..|events| - 1]), events[|events| - 1]))
  }

  lemma {:induction false} RunConcat(h: Hash, w: World, first: seq<Event>, second: seq<Event>)
    ensures Run(h, w, first + second) == Run(h, Run(h, w, first), second)
  {
    if second == [] {
      assert first + second == first;
    } else {
      assert (first + second)[..|first + second| - 1] == first + second[..|second| - 1];
      RunConcat(h, w, first, second[..|second| - 1]);
    }
  }

  lemma {:induction false} OverwrittenConcat(h: Hash, w: World, first: seq<Event>, second: seq<Event>)
    ensures NothingOverwritten(h, w, first + second) <==>
            NothingOverwritten(h, w, first) && NothingOverwritten(h, Run(h, w, first), second)
  {
    hide Overwrites;
    if second == [] {
      assert first + second == first;
    } else {
      assert (first + second)[..|first + second| - 1] == first + second[..|second| - 1];
      RunConcat(h, w, first, second[..|second| - 1]);
      OverwrittenConcat(h, w, first, second[..|second| - 1]);
    }
  }

  // ----- What appending one event to a run does -----

  lemma RunAppend(h: Hash, w: World, trace: seq<Event>, e: Event)
    ensures Run(h, w, trace + [e]) == Step(h, Run(h, w, trace), e)
    ensures NothingOverwritten(h, w, trace + [e]) <==>
            NothingOverwritten(h, w, trace) && !Overwrites(h, Run(h, w, trace), e)
  {
    assert (trace + [e])[..|trace|] == trace;
  }

  lemma ProtectStepIs(h: Hash, w: World, trace: seq<Event>, i: ItemId, p: ProtectStep)
    requires i in Run(h, w, trace).items
    ensures var now := Run(h, w, trace);
            Run(h, w, trace + [Protect(i, p)]) == Put(now, i, ProtectItem(h, now.env.active, i, now.items[i], p))
  {
    hide ProtectItem;
    RunAppend(h, w, trace, Protect(i, p));
  }

  lemma StageStepIs(h: Hash, w: World, trace: seq<Event>, i: ItemId, s: StageStep)
    requires i in Run(h, w, trace).items
    ensures var now := Run(h, w, trace);
            Run(h, w, trace + [Stage(i, s)]) == Put(now, i, StageItem(h, now.env, now.items[i], s))
    ensures NothingOverwritten(h, w, trace + [Stage(i, s)]) <==> NothingOverwritten(h, w, trace)
  {
    hide StageItem;
    RunAppend(h, w, trace, Stage(i, s));
  }

  lemma SettleStepIs(h: Hash, w: World, trace: seq<Event>, i: ItemId, s: SettleStep)
    requires i in Run(h, w, trace).items
    ensures var now := Run(h, w, trace);
            Run(h, w, trace + [Settle(i, s)]) == Put(now, i, SettleItem(now.items[i], s))
  {
    hide SettleItem;
    RunAppend(h, w, trace, Settle(i, s));
  }

  lemma DeleteBeginIs(h: Hash, w: World, trace: seq<Event>, i: ItemId, canDelete: bool)
    requires i in Run(h, w, trace).items
    ensures Run(h, w, trace + [DeleteBegin(i, canDelete)]) == DeleteBeginStep(Run(h, w, trace), i, canDelete)
  {
    RunAppend(h, w, trace, DeleteBegin(i, canDelete));
  }

  lemma DeleteCheckIs(h: Hash, w: World, trace: seq<Event>, i: ItemId)
    requires i in Run(h, w, trace).items
    ensures Run(h, w, trace + [DeleteCheck(i)]) == DeleteCheckStep(Run(h, w, trace), i)
  {
    RunAppend(h, w, trace, DeleteCheck(i));
  }

  lemma DeleteCallIs(h: Hash, w: World, trace: seq<Event>, i: ItemId)
    requires i in Run(h, w, trace).items
    ensures Run(h, w, trace + [DeleteCall(i)]) == DeleteCallStep(Run(h, w, trace), i)
  {
    RunAppend(h, w, trace, DeleteCall(i));
  }

  lemma CommitFileIs(h: Hash, w: World, trace: seq<Event>, i: ItemId)
    requires i in Run(h, w, trace).items
    ensures Run(h, w, trace + [CommitFile(i)]) == CommitFileStep(h, Run(h, w, trace), i)
    ensures NothingOverwritten(h, w, trace + [CommitFile(i)]) <==>
            NothingOverwritten(h, w, trace) && !Overwrites(h, Run(h, w, trace), CommitFile(i))
  {
    RunAppend(h, w, trace, CommitFile(i));
  }

  lemma OutsideLeavesItem(h: Hash, w: World, e: Event, i: ItemId)
    requires i in w.items && (if e.Outside? then !e.outside.Crash? else e.i != i)
    ensures i in Step(h, w, e).items && Step(h, w, e).items[i] == w.items[i]
  {
  }
}
