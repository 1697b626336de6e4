/** What every run of the archive machine keeps, and what it means for deletion. */
module ArchiveSafety {
  import opened Basics
  import opened States
  import opened Names
  import opened Archive

  // ----- The checkpoint invariant -----

  /** A file outside the library: Mnema's own, so nobody else writes it. */
  predicate Kept(h: Hash, active: map<Path, Bytes>, p: Path, d: Digest) {
    !InLibrary(p) && Held(h, active, p, d)
  }

  /** Where the bytes of a staged or verified row are. A library item that was adopted has them in the
      library, as long as the user leaves the file alone. */
  predicate StagedCopy(h: Hash, env: Env, it: Item, r: Row)
    requires r.sha.Some?
  {
    var d := r.sha.value;
    if it.staged.Some? then h(it.staged.value) == d
    else
      && r.state == LOCAL_VERIFIED
      && (r.sourceId.Library?
          || Kept(h, env.active, r.originalPath, d) || Kept(h, env.active, CollisionName(r.originalPath, d), d))
  }

  /** Where a committed row says its file is: a file of Mnema's own that holds the bytes, or the library
      file itself. */
  predicate Placed(h: Hash, active: map<Path, Bytes>, r: Row, p: Path)
    requires r.sha.Some?
  {
    if r.sourceId.Library? then p == LibraryPath(r.sourceId.name) else Kept(h, active, p, r.sha.value)
  }

  /** What a row in a given state guarantees about the stores. */
  predicate Checkpoint(h: Hash, env: Env, i: ItemId, it: Item, r: Row) {
    var k := Position(r.state);
    && (r.sourceId.Library? ==> r.originalPath == LibraryPath(r.sourceId.name))
    && (4 <= k ==> r.sha.Some?)
    && (4 <= k <= 5 ==> StagedCopy(h, env, it, r))
    && (6 <= k ==> r.nasPath.Some? && Placed(h, env.active, r, r.nasPath.value))
    && (8 <= k ==> r.snapshotId == Some(i) && it.snapshot.Some? && r.sha == Some(h(it.snapshot.value)))
    && (10 <= k ==> r.remote == Some(i) && it.coldCopy.Some?)
    && (11 <= k ==> r.sha == Some(h(it.coldCopy.value)))
  }

  /** As long as the source still shows the recorded version, it holds the hashed bytes. */
  predicate SourceAgrees(h: Hash, env: Env, r: Row) {
    && (r.sourceId, r.sourceVersion) in env.seen
    && (4 <= Position(r.state) <= 17 && r.sourceId in env.sources
        && env.sources[r.sourceId].version == r.sourceVersion
        ==> r.sha == Some(h(env.sources[r.sourceId].content)))
  }

  predicate RowOk(h: Hash, env: Env, i: ItemId, it: Item, r: Row) {
    Checkpoint(h, env, i, it, r) && SourceAgrees(h, env, r)
  }

  /** What the process may believe in the middle of a step. A download whose source still
      shows the version it started from has copied a true prefix of it. */
  predicate WorkOk(h: Hash, env: Env, it: Item) {
    var r := it.mem;
    match it.work
    case Idle => true
    case Transferring(before) =>
      && r.state == DOWNLOADING && it.staged.Some?
      && (r.sourceId, before) in env.seen
      && (r.sourceId in env.sources && env.sources[r.sourceId].version == before
          ==> it.staged.value <= env.sources[r.sourceId].content)
    case Moved(p) =>
      r.state == LOCAL_VERIFIED && it.staged.None? && r.sha.Some? && Placed(h, env.active, r, p)
    case CopyingSnapshot => r.state == LOCAL_BACKUP_PENDING && it.snapshot.None? && it.snapshotPartial
    case CopyingObject => r.state == COLD_UPLOAD_PENDING && it.coldCopy.None? && it.coldPartial
    case DeleteReady => r.state == DELETING && r.sourceId.Separate?
    case DeleteChecked => r.state == DELETING && r.sourceId.Separate?
    case DeleteDone => r.state == DELETING && r.sourceId.Separate?
  }

  predicate ItemOk(h: Hash, env: Env, i: ItemId, it: Item) {
    && RowOk(h, env, i, it, it.mem)
    && (it.db.Some? ==> RowOk(h, env, i, it, it.db.value))
    && (3 <= Position(it.mem.state) <= 17 ==> it.db == Some(it.mem))
    && (it.db.None? ==> it.staged.None? && it.snapshot.None? && it.coldCopy.None? && it.work.Idle?
                        && !it.snapshotPartial && !it.coldPartial)
    && WorkOk(h, env, it)
  }

  /** The digest Mnema recorded for whatever it deleted from the source is still held three times. */
  predicate DeletionCovered(h: Hash, w: World, d: Deletion) {
    && d.item in w.items
    && var it := w.items[d.item];
    && it.db.Some?
    && it.snapshot.Some? && h(it.snapshot.value) == d.digest
    && it.coldCopy.Some? && h(it.coldCopy.value) == d.digest
    && Kept(h, w.env.active, d.path, d.digest)
  }

  /** What the source shows is on record, and the library objects are the files in the library. */
  predicate SourcesOk(env: Env) {
    && (forall s :: s in env.sources ==> (s, env.sources[s].version) in env.seen)
    && (forall s :: s in env.sources && s.Library? ==>
          && env.sources[s].path == LibraryPath(s.name)
          && LibraryPath(s.name) in env.active && env.active[LibraryPath(s.name)] == env.sources[s].content)
    && (forall p :: p in env.active && InLibrary(p) ==> Library(LibraryName(p)) in env.sources)
  }

  predicate Inv(h: Hash, w: World) {
    && (forall i :: i in w.items ==> ItemOk(h, w.env, i, w.items[i]))
    && SourcesOk(w.env)
    && (forall k :: 0 <= k < |w.log| ==> DeletionCovered(h, w, w.log[k]))
  }

  // ----- Framing -----

  /** Active files outside the library are never changed or removed, and a source object is either the
      same or shows a version never seen before. */
  predicate EnvGrows(env: Env, env': Env) {
    && (forall p :: p in env.active && !InLibrary(p) ==> p in env'.active && env'.active[p] == env.active[p])
    && env.seen <= env'.seen
    && (forall s :: s in env'.sources ==>
          (s in env.sources && env'.sources[s] == env.sources[s]) || (s, env'.sources[s].version) !in env.seen)
  }

  lemma EnvGrowthKeepsFile(h: Hash, env: Env, env': Env, p: Path, d: Digest)
    requires EnvGrows(env, env') && Kept(h, env.active, p, d)
    ensures Kept(h, env'.active, p, d)
  {
  }

  lemma EnvGrowthKeepsRow(h: Hash, env: Env, env': Env, i: ItemId, it: Item, r: Row)
    requires RowOk(h, env, i, it, r) && EnvGrows(env, env')
    ensures RowOk(h, env', i, it, r)
  {
    assert SourceAgrees(h, env', r);
  }

  lemma EnvGrowthKeepsWork(h: Hash, env: Env, env': Env, it: Item)
    requires WorkOk(h, env, it) && EnvGrows(env, env')
    ensures WorkOk(h, env', it)
  {
    if it.work.Moved? && it.mem.sourceId.Separate? {
      EnvGrowthKeepsFile(h, env, env', it.work.path, it.mem.sha.value);
    }
  }

  lemma EnvGrowthKeepsItem(h: Hash, env: Env, env': Env, i: ItemId, it: Item)
    requires ItemOk(h, env, i, it) && EnvGrows(env, env')
    ensures ItemOk(h, env', i, it)
  {
    hide RowOk, WorkOk, EnvGrows;
    EnvGrowthKeepsRow(h, env, env', i, it, it.mem);
    if it.db.Some? {
      EnvGrowthKeepsRow(h, env, env', i, it, it.db.value);
    }
    EnvGrowthKeepsWork(h, env, env', it);
  }

  /** An item keeps every copy it ever had in the backup and cold stores. */
  predicate Keeps(it: Item, it': Item) {
    && (it.db.Some? ==> it'.db.Some?)
    && (it.snapshot.Some? ==> it'.snapshot == it.snapshot)
    && (it.coldCopy.Some? ==> it'.coldCopy == it.coldCopy)
  }

  lemma ReplaceItem(h: Hash, w: World, i: ItemId, it': Item)
    requires Inv(h, w) && i in w.items
    requires Keeps(w.items[i], it') && ItemOk(h, w.env, i, it')
    ensures Inv(h, Put(w, i, it'))
  {
    var w' := Put(w, i, it');
    forall k | 0 <= k < |w'.log| ensures DeletionCovered(h, w', w'.log[k]) {
      assert DeletionCovered(h, w, w.log[k]);
    }
  }

  lemma ReplaceEnv(h: Hash, w: World, env': Env)
    requires Inv(h, w) && EnvGrows(w.env, env') && SourcesOk(env')
    ensures Inv(h, w.(env := env'))
  {
    var w' := w.(env := env');
    forall i | i in w'.items ensures ItemOk(h, env', i, w'.items[i]) {
      EnvGrowthKeepsItem(h, w.env, env', i, w.items[i]);
    }
    forall k | 0 <= k < |w'.log| ensures DeletionCovered(h, w', w'.log[k]) {
      assert DeletionCovered(h, w, w.log[k]);
    }
  }

  // ----- Each step keeps the invariant -----

  lemma CrashSafe(h: Hash, w: World)
    requires Inv(h, w)
    ensures Inv(h, OutsideWorld(w, Crash))
  {
    hide SourcesOk;
    var w' := OutsideWorld(w, Crash);
    forall k | 0 <= k < |w'.log| ensures DeletionCovered(h, w', w'.log[k]) {
      assert DeletionCovered(h, w, w.log[k]);
    }
  }

  lemma DiscoverNewSafe(h: Hash, w: World, i: ItemId, sid: SourceId, eligible: bool)
    requires Inv(h, w)
    ensures Inv(h, OutsideWorld(w, DiscoverNew(i, sid, eligible)))
  {
    var w' := OutsideWorld(w, DiscoverNew(i, sid, eligible));
    forall k | 0 <= k < |w'.log| ensures DeletionCovered(h, w', w'.log[k]) {
      assert DeletionCovered(h, w, w.log[k]);
    }
  }

  /** Library names and the files they stand for are one to one. */
  lemma LibraryNameOfPath(name: string)
    ensures InLibrary(LibraryPath(name)) && LibraryName(LibraryPath(name)) == name
  {
  }

  lemma PathOfLibraryName(p: Path)
    requires InLibrary(p)
    ensures LibraryPath(LibraryName(p)) == p
  {
  }

  lemma LibraryOneToOne()
    ensures forall s: SourceId :: s.Library? ==>
              InLibrary(LibraryPath(s.name)) && LibraryName(LibraryPath(s.name)) == s.name
    ensures forall p :: InLibrary(p) ==> LibraryPath(LibraryName(p)) == p
  {
    forall s: SourceId | s.Library?
      ensures InLibrary(LibraryPath(s.name)) && LibraryName(LibraryPath(s.name)) == s.name
    {
      LibraryNameOfPath(s.name);
    }
    forall p | InLibrary(p) ensures LibraryPath(LibraryName(p)) == p {
      PathOfLibraryName(p);
    }
  }

  /** The user's edits write and remove library files only. */
  lemma WriteGrows(env: Env, sid: SourceId, obj: SourceObject)
    requires SourcesOk(env)
    ensures EnvGrows(env, SourceWritten(env, sid, obj)) && SourcesOk(SourceWritten(env, sid, obj))
  {
    LibraryOneToOne();
    hide InLibrary, LibraryPath, LibraryName;
  }

  lemma RemovalGrows(env: Env, sid: SourceId)
    requires SourcesOk(env)
    ensures EnvGrows(env, SourceRemoved(env, sid)) && SourcesOk(SourceRemoved(env, sid))
  {
    LibraryOneToOne();
    hide InLibrary, LibraryPath, LibraryName;
  }

  lemma OutsideSafe(h: Hash, w: World, o: OutsideStep)
    requires Inv(h, w)
    ensures Inv(h, OutsideWorld(w, o))
  {
    hide ItemOk, DeletionCovered, SourceWritten, SourceRemoved, SourcesOk, EnvGrows;
    match o
    case SourceWrite(sid, obj) =>
      WriteGrows(w.env, sid, obj);
      ReplaceEnv(h, w, SourceWritten(w.env, sid, obj));
    case SourceRemove(sid) =>
      RemovalGrows(w.env, sid);
      ReplaceEnv(h, w, SourceRemoved(w.env, sid));
    case Import(path, content) => ImportSafe(h, w, path, content);
    case Crash => CrashSafe(h, w);
    case DiscoverNew(i, sid, eligible) => DiscoverNewSafe(h, w, i, sid, eligible);
  }

  lemma ImportSafe(h: Hash, w: World, path: Path, content: Bytes)
    requires Inv(h, w)
    ensures Inv(h, OutsideWorld(w, Import(path, content)))
  {
    hide ItemOk, DeletionCovered;
    var w' := OutsideWorld(w, Import(path, content));
    LibraryOneToOne();
    ReplaceEnv(h, w, w'.env);
  }

  lemma DiscoverySafe(h: Hash, env: Env, i: ItemId, it: Item, eligible: bool)
    requires ItemOk(h, env, i, it)
    requires SourcesOk(env)
    ensures ItemOk(h, env, i, StageItem(h, env, it, DiscoverKnown(eligible)))
  {
  }

  lemma DownloadStartSafe(h: Hash, env: Env, i: ItemId, it: Item)
    requires ItemOk(h, env, i, it)
    requires SourcesOk(env)
    ensures ItemOk(h, env, i, StageItem(h, env, it, DownloadStart))
  {
  }

  lemma DownloadChunkSafe(h: Hash, env: Env, i: ItemId, it: Item, count: nat, torn: Bytes)
    requires ItemOk(h, env, i, it)
    ensures ItemOk(h, env, i, StageItem(h, env, it, DownloadChunk(count, torn)))
  {
    var it' := StageItem(h, env, it, DownloadChunk(count, torn));
    if it' != it {
      assert it' == it.(staged := it'.staged) && it'.staged.Some?;
    }
  }

  /** The torn-read argument: bytes hashed at the end of a download are the bytes of the
      version the source shows at both ends of it. */
  lemma DownloadFinishSafe(h: Hash, env: Env, i: ItemId, it: Item)
    requires ItemOk(h, env, i, it)
    ensures ItemOk(h, env, i, StageItem(h, env, it, DownloadFinish))
  {
    var it' := StageItem(h, env, it, DownloadFinish);
    if it'.mem.state == LOCAL_STAGED && it != it' {
      assert it.staged.value == env.sources[it.mem.sourceId].content;
    }
  }

  lemma StagingSafe(h: Hash, env: Env, i: ItemId, it: Item, s: StageStep)
    requires ItemOk(h, env, i, it)
    requires s.ArchiveBegin? || s.ClearStaged? || s.Abort? || s.VerifyStaged? || s.CommitRow?
    ensures ItemOk(h, env, i, StageItem(h, env, it, s))
  {
  }

  lemma StageKeeps(h: Hash, env: Env, it: Item, s: StageStep)
    ensures Keeps(it, StageItem(h, env, it, s))
  {
  }

  lemma StageSafe(h: Hash, env: Env, i: ItemId, it: Item, s: StageStep)
    requires ItemOk(h, env, i, it)
    requires SourcesOk(env)
    ensures ItemOk(h, env, i, StageItem(h, env, it, s))
  {
    hide ItemOk, StageItem;
    match s
    case DiscoverKnown(eligible) => DiscoverySafe(h, env, i, it, eligible);
    case DownloadStart => DownloadStartSafe(h, env, i, it);
    case DownloadChunk(count, torn) => DownloadChunkSafe(h, env, i, it, count, torn);
    case DownloadFinish => DownloadFinishSafe(h, env, i, it);
    case _ => StagingSafe(h, env, i, it, s);
  }

  lemma ProtectKeeps(h: Hash, env: Env, i: ItemId, it: Item, step: ProtectStep)
    requires WorkOk(h, env, it)
    ensures Keeps(it, ProtectItem(h, env.active, i, it, step))
  {
  }

  lemma BackupStepSafe(h: Hash, env: Env, i: ItemId, it: Item, step: ProtectStep)
    requires ItemOk(h, env, i, it)
    requires step.BackupPending? || step.SnapshotBegin? || step.SnapshotPublish? || step.BackupConfirm?
    ensures ItemOk(h, env, i, ProtectItem(h, env.active, i, it, step))
  {
  }

  lemma UploadStepSafe(h: Hash, env: Env, i: ItemId, it: Item, step: ProtectStep)
    requires ItemOk(h, env, i, it)
    requires step.ColdPending? || step.UploadBegin? || step.UploadPublish? || step.ColdRecord? || step.ColdVerify?
    ensures ItemOk(h, env, i, ProtectItem(h, env.active, i, it, step))
  {
  }

  lemma ParkStepSafe(h: Hash, env: Env, i: ItemId, it: Item, step: ProtectStep)
    requires ItemOk(h, env, i, it)
    requires step.ArchivePending? || step.ColdArchive? || step.Quarantine?
    ensures ItemOk(h, env, i, ProtectItem(h, env.active, i, it, step))
  {
  }

  lemma ProtectSafe(h: Hash, env: Env, i: ItemId, it: Item, step: ProtectStep)
    requires ItemOk(h, env, i, it)
    ensures ItemOk(h, env, i, ProtectItem(h, env.active, i, it, step))
    ensures Keeps(it, ProtectItem(h, env.active, i, it, step))
  {
    hide ProtectItem, Checkpoint, SourceAgrees;
    ProtectKeeps(h, env, i, it, step);
    if step.BackupPending? || step.SnapshotBegin? || step.SnapshotPublish? || step.BackupConfirm? {
      BackupStepSafe(h, env, i, it, step);
    } else if step.ArchivePending? || step.ColdArchive? || step.Quarantine? {
      ParkStepSafe(h, env, i, it, step);
    } else {
      UploadStepSafe(h, env, i, it, step);
    }
  }

  lemma SettleSafe(h: Hash, env: Env, i: ItemId, it: Item, s: SettleStep)
    requires ItemOk(h, env, i, it)
    ensures ItemOk(h, env, i, SettleItem(it, s)) && Keeps(it, SettleItem(it, s))
  {
    hide Placed, StagedCopy;
    if it.mem.nasPath.Some? && it.mem.sha.Some? {
      PlacedAlike(h, env.active, it.mem, SettleItem(it, s).mem, it.mem.nasPath.value);
    }
  }

  lemma PlacedAlike(h: Hash, active: map<Path, Bytes>, r: Row, r': Row, p: Path)
    requires r.sha.Some? && r'.sha == r.sha && r'.sourceId == r.sourceId
    ensures Placed(h, active, r', p) == Placed(h, active, r, p)
  {
  }

  lemma RollbackSafe(h: Hash, w: World, i: ItemId)
    requires Inv(h, w) && i in w.items
    ensures Inv(h, RollbackItem(w, i))
  {
    if w.items[i].db.Some? {
      ReplaceItem(h, w, i, Reloaded(w.items[i]));
    } else {
      var w' := RollbackItem(w, i);
      forall k | 0 <= k < |w'.log| ensures DeletionCovered(h, w', w'.log[k]) {
        assert DeletionCovered(h, w, w.log[k]);
      }
    }
  }

  /** The item after its file was committed to `p`, in an environment where it is there. */
  lemma CommittedItemOk(h: Hash, env: Env, i: ItemId, it: Item, p: Path)
    requires ItemOk(h, env, i, it) && CanCommitFile(h, it)
    requires Kept(h, env.active, p, it.mem.sha.value)
    requires p == it.mem.originalPath || p == CollisionName(it.mem.originalPath, it.mem.sha.value)
    ensures ItemOk(h, env, i, it.(staged := None, work := Moved(p)))
  {
    hide CollisionName, InLibrary;
  }

  lemma AdoptedItemOk(h: Hash, env: Env, i: ItemId, it: Item)
    requires ItemOk(h, env, i, it) && CanAdopt(h, env, it)
    ensures ItemOk(h, env, i, it.(staged := None, work := Moved(it.mem.originalPath)))
  {
  }

  /** Committing where nothing else is lost leaves the library and every other file alone. */
  lemma CommitGrows(h: Hash, env: Env, path: Path, content: Bytes)
    requires SourcesOk(env) && TargetFree(h, env.active, path, h(content), content)
    ensures var env' := env.(active := CommittedActive(h, env.active, path, h(content), content));
            && EnvGrows(env, env') && SourcesOk(env')
            && Kept(h, env'.active, CommitTarget(h, env.active, path, h(content), |content|), h(content))
  {
    hide CollisionName;
    CommitHoldsBytes(h, env.active, path, content);
    LibraryOneToOne();
  }

  lemma CommitFileSafe(h: Hash, w: World, i: ItemId)
    requires Inv(h, w) && i in w.items && !Overwrites(h, w, CommitFile(i))
    ensures Inv(h, CommitFileStep(h, w, i))
  {
    hide ItemOk, DeletionCovered, SourcesOk, EnvGrows, TargetFree, CommittedActive;
    var it := w.items[i];
    var w' := CommitFileStep(h, w, i);
    if CanAdopt(h, w.env, it) {
      AdoptedItemOk(h, w.env, i, it);
      ReplaceItem(h, w, i, w'.items[i]);
    } else if w' != w {
      CommitGrows(h, w.env, it.mem.originalPath, it.staged.value);
      ReplaceEnv(h, w, w'.env);
      CommittedItemOk(h, w'.env, i, it, w'.items[i].work.path);
      ReplaceItem(h, w.(env := w'.env), i, w'.items[i]);
    }
  }

  lemma DeleteBeginSafe(h: Hash, w: World, i: ItemId, canDelete: bool)
    requires Inv(h, w) && i in w.items
    ensures Inv(h, DeleteBeginStep(w, i, canDelete))
  {
    var it := w.items[i];
    var r := it.mem;
    var w' := DeleteBeginStep(w, i, canDelete);
    if w' != w {
      if !SourceMatches(r, w.env.sources[r.sourceId]) || CanReachDeleting(r.state) {
        OnlyPredecessor(r.state, DELETING);
        ReplaceItem(h, w, i, w'.items[i]);
      } else {
        RollbackSafe(h, w, i);
      }
    }
  }

  /** The copies that stand behind a source object at the moment Mnema deletes it. */
  lemma DeletionIsCovered(h: Hash, w: World, i: ItemId)
    requires Inv(h, w) && i in w.items && w.items[i].work.DeleteChecked?
    ensures var it := w.items[i];
            && it.mem.sha.Some? && it.mem.nasPath.Some?
            && Kept(h, w.env.active, it.mem.nasPath.value, it.mem.sha.value)
            && it.db == Some(it.mem) && it.mem.state == DELETING
            && it.snapshot.Some? && h(it.snapshot.value) == it.mem.sha.value
            && it.coldCopy.Some? && h(it.coldCopy.value) == it.mem.sha.value
            && (it.mem.sourceId in w.env.sources && w.env.sources[it.mem.sourceId].version == it.mem.sourceVersion
                ==> it.mem.sha.value == h(w.env.sources[it.mem.sourceId].content))
  {
    assert ItemOk(h, w.env, i, w.items[i]);
  }

  lemma DeleteCheckSafe(h: Hash, w: World, i: ItemId)
    requires Inv(h, w) && i in w.items
    ensures Inv(h, DeleteCheckStep(w, i))
  {
    hide ItemOk;
    if w.items[i].work.DeleteReady? {
      DeletionWorkOk(h, w.env, i, w.items[i]);
      ReplaceItem(h, w, i, DeleteCheckStep(w, i).items[i]);
    }
  }

  lemma DeleteCallSafe(h: Hash, w: World, i: ItemId)
    requires Inv(h, w) && i in w.items
    ensures Inv(h, DeleteCallStep(w, i))
  {
    hide ItemOk;
    var it := w.items[i];
    if it.work.DeleteChecked? {
      if it.mem.sourceId in w.env.sources {
        ConfirmedDeleteSafe(h, w, i);
      } else {
        DeletionWorkOk(h, w.env, i, it);
        ReplaceItem(h, w, i, DeleteCallStep(w, i).items[i]);
      }
    }
  }

  lemma DeletionWorkOk(h: Hash, env: Env, i: ItemId, it: Item)
    requires ItemOk(h, env, i, it) && (it.work.DeleteReady? || it.work.DeleteChecked?)
    ensures ItemOk(h, env, i, it.(mem := it.mem.(state := ManualReview), work := Idle))
    ensures ItemOk(h, env, i, it.(mem := it.mem.(state := SourceChanged), work := Idle))
    ensures ItemOk(h, env, i, it.(work := DeleteChecked)) && ItemOk(h, env, i, it.(work := DeleteDone))
    ensures it.mem.sourceId.Separate?
  {
  }

  lemma ConfirmedDeleteSafe(h: Hash, w: World, i: ItemId)
    requires Inv(h, w) && i in w.items && w.items[i].work.DeleteChecked?
    requires w.items[i].mem.sourceId in w.env.sources
    ensures Inv(h, DeleteCallStep(w, i))
  {
    hide ItemOk, Kept;
    var it := w.items[i];
    DeletionIsCovered(h, w, i);
    DeletionWorkOk(h, w.env, i, it);
    var w' := DeleteCallStep(w, i);
    ReplaceEnv(h, w, w'.env);
    var grown := w.(env := w'.env);
    DeletionWorkOk(h, grown.env, i, it);
    ReplaceItem(h, grown, i, w'.items[i]);
    var put := Put(grown, i, w'.items[i]);
    assert w' == put.(log := w'.log);
    forall k | 0 <= k < |w'.log| ensures DeletionCovered(h, w', w'.log[k]) {
      if k < |w.log| {
        assert DeletionCovered(h, put, put.log[k]);
      }
    }
  }

  lemma StepSafe(h: Hash, w: World, e: Event)
    requires Inv(h, w) && !Overwrites(h, w, e)
    ensures Inv(h, Step(h, w, e))
  {
    if e.Outside? {
      OutsideSafe(h, w, e.outside);
    } else if e.i in w.items {
      var it := w.items[e.i];
      match e
      case Stage(i, s) =>
        StageSafe(h, w.env, i, it, s);
        StageKeeps(h, w.env, it, s);
        ReplaceItem(h, w, i, StageItem(h, w.env, it, s));
      case CommitFile(i) => CommitFileSafe(h, w, i);
      case Protect(i, p) =>
        ProtectSafe(h, w.env, i, it, p);
        ReplaceItem(h, w, i, ProtectItem(h, w.env.active, i, it, p));
      case Decide(i, ctx) =>
        ReplaceItem(h, w, i, it.(decision := GateSaysYes(h, w.env, it.mem, ctx)));
      case DeleteBegin(i, canDelete) => DeleteBeginSafe(h, w, i, canDelete);
      case DeleteCheck(i) => DeleteCheckSafe(h, w, i);
      case DeleteCall(i) => DeleteCallSafe(h, w, i);
      case Settle(i, t) =>
        SettleSafe(h, w.env, i, it, t);
        ReplaceItem(h, w, i, SettleItem(it, t));
      case Rollback(i) => RollbackSafe(h, w, i);
    }
  }

  /** Checkpoint invariant: for every interleaving of source edits, discovery, archive steps, deletions,
      crashes and restarts in which no commit meets other bytes at its collision name. */
  lemma CheckpointsHold(h: Hash, events: seq<Event>)
    requires NothingOverwritten(h, EMPTY_WORLD, events)
    ensures Inv(h, Run(h, EMPTY_WORLD, events))
  {
    LaterStatesAreSafe(h, EMPTY_WORLD, events);
  }

  lemma {:induction false} LaterStatesAreSafe(h: Hash, w: World, events: seq<Event>)
    requires Inv(h, w) && NothingOverwritten(h, w, events)
    ensures Inv(h, Run(h, w, events))
  {
    hide Inv, Step, Overwrites;
    if events != [] {
      LaterStatesAreSafe(h, w, events[..|events| - 1]);
      StepSafe(h, Run(h, w, events[..|events| - 1]), events[|events| - 1]);
    }
  }

  // ----- Never delete the last copy -----

  /** Bytes of this hash are in the active file, the backup snapshot and the cold object. */
  predicate HeldThreeTimes(h: Hash, w: World, i: ItemId, p: Path, d: Digest) {
    && Held(h, w.env.active, p, d)
    && i in w.items
    && w.items[i].snapshot.Some? && h(w.items[i].snapshot.value) == d
    && w.items[i].coldCopy.Some? && h(w.items[i].coldCopy.value) == d
  }

  /** Whenever a step other than the user's own removal takes an object off the source, it is the unlink of an
      item durably in DELETING. At that moment and in every later state the object's bytes are held in the
      active file, the backup snapshot and the cold object exactly when they hash to the recorded digest, and
      so they are whenever the object shows the recorded version as it is unlinked. */
  lemma NeverDeleteTheLastCopy(h: Hash, before: seq<Event>, e: Event, sid: SourceId, after: seq<Event>)
    requires NothingOverwritten(h, EMPTY_WORLD, before)
    requires NothingOverwritten(h, Step(h, Run(h, EMPTY_WORLD, before), e), after)
    requires var w := Run(h, EMPTY_WORLD, before);
             && sid in w.env.sources && sid !in Step(h, w, e).env.sources
             && e != Outside(SourceRemove(sid))
    ensures var w := Run(h, EMPTY_WORLD, before);
            var later := Run(h, Step(h, w, e), after);
            var bytes := w.env.sources[sid].content;
            && e.DeleteCall? && e.i in w.items
            && var r := w.items[e.i].mem;
            && r.state == DELETING && w.items[e.i].db == Some(r)
            && r.sourceId == sid && r.sha.Some? && r.nasPath.Some?
            && (HeldThreeTimes(h, later, e.i, r.nasPath.value, h(bytes)) <==> r.sha.value == h(bytes))
            && (w.env.sources[sid].version == r.sourceVersion ==> r.sha.value == h(bytes))
  {
    var w := Run(h, EMPTY_WORLD, before);
    CheckpointsHold(h, before);
    OnlyDeleteCallRemoves(h, w, e, sid);
    DeletionIsCovered(h, w, e.i);
    var d := DeletionOf(w, e.i, w.items[e.i].mem);
    var w' := Step(h, w, e);
    assert w'.log[|w.log|] == d;
    DeleteCallSafe(h, w, e.i);
    LogOnlyGrows(h, w', after);
    LaterStatesAreSafe(h, w', after);
    assert Run(h, w', after).log[|w.log|] == d;
  }

  /** The adapter's version check and its unlink are two calls. Bytes written between them are unlinked, and
      no store of the item has them. */
  lemma EditBeforeUnlinkIsLost(h: Hash, before: seq<Event>, i: ItemId, obj: SourceObject)
    requires NothingOverwritten(h, EMPTY_WORLD, before)
    requires var w := Run(h, EMPTY_WORLD, before);
             && i in w.items && w.items[i].work.DeleteChecked?
             && (w.items[i].mem.sourceId, obj.version) !in w.env.seen
             && w.items[i].mem.sha != Some(h(obj.content))
    ensures var w := Run(h, EMPTY_WORLD, before);
            var sid := w.items[i].mem.sourceId;
            var written := Step(h, w, Outside(SourceWrite(sid, obj)));
            var w' := Step(h, written, DeleteCall(i));
            && sid in written.env.sources && written.env.sources[sid] == obj && sid !in w'.env.sources
            && w'.items[i].snapshot.Some? && h(w'.items[i].snapshot.value) != h(obj.content)
            && w'.items[i].coldCopy.Some? && h(w'.items[i].coldCopy.value) != h(obj.content)
            && var r := w.items[i].mem;
            && r.nasPath.Some? && r.sha.Some? && Held(h, w'.env.active, r.nasPath.value, r.sha.value)
  {
    hide Run, ItemOk;
    CheckpointsHold(h, before);
    var w := Run(h, EMPTY_WORLD, before);
    DeletionIsCovered(h, w, i);
    DeletionWorkOk(h, w.env, i, w.items[i]);
  }

  lemma {:induction false} LogOnlyGrows(h: Hash, w: World, events: seq<Event>)
    ensures w.log <= Run(h, w, events).log
  {
    if events != [] {
      LogOnlyGrows(h, w, events[..|events| - 1]);
      var w' := Run(h, w, events[..|events| - 1]);
      assert w'.log <= Step(h, w', events[|events| - 1]).log;
    }
  }

  lemma OnlyDeleteCallRemoves(h: Hash, w: World, e: Event, sid: SourceId)
    requires sid in w.env.sources && sid !in Step(h, w, e).env.sources
    requires e != Outside(SourceRemove(sid))
    ensures e.DeleteCall? && e.i in w.items && w.items[e.i].work.DeleteChecked?
    ensures w.items[e.i].mem.sourceId == sid
  {
  }

  /** And the unlink is only reached through a check that saw the recorded version. */
  lemma CheckSawTheRecordedVersion(h: Hash, w: World, e: Event, i: ItemId)
    requires i in w.items && !w.items[i].work.DeleteChecked?
    requires i in Step(h, w, e).items && Step(h, w, e).items[i].work.DeleteChecked?
    ensures e == DeleteCheck(i) && w.items[i].work.DeleteReady?
    ensures var r := w.items[i].mem;
            r.sourceId in w.env.sources && w.env.sources[r.sourceId].version == r.sourceVersion
  {
    hide StageItem, ProtectItem;
    if !e.Outside? && e.i == i {
      match e
      case Stage(_, s) => StageChecksNothing(h, w.env, w.items[i], s);
      case Protect(_, p) => ProtectChecksNothing(h, w.env.active, i, w.items[i], p);
      case _ =>
    } else if e != Outside(Crash) {
      OutsideLeavesItem(h, w, e, i);
    }
  }

  lemma StageChecksNothing(h: Hash, env: Env, it: Item, s: StageStep)
    requires !it.work.DeleteChecked?
    ensures !StageItem(h, env, it, s).work.DeleteChecked?
  {
  }

  lemma ProtectChecksNothing(h: Hash, active: map<Path, Bytes>, i: ItemId, it: Item, p: ProtectStep)
    requires !it.work.DeleteChecked?
    ensures !ProtectItem(h, active, i, it, p).work.DeleteChecked?
  {
  }

  // ----- Library items: the source object is the archived file -----

  /** An adopted item's archived file is the library file itself. In every reachable state it holds the
      recorded bytes exactly when the library object is there and hashes to the recorded digest; that is so
      as long as the object shows the recorded version, and never after its removal. */
  lemma LibraryFileIsHeldIff(h: Hash, events: seq<Event>, i: ItemId)
    requires NothingOverwritten(h, EMPTY_WORLD, events) && i in Run(h, EMPTY_WORLD, events).items
    requires var r := Run(h, EMPTY_WORLD, events).items[i].mem;
             r.sourceId.Library? && 6 <= Position(r.state)
    ensures var w := Run(h, EMPTY_WORLD, events);
            var r := w.items[i].mem;
            && r.sha.Some? && r.nasPath.Some?
            && (Held(h, w.env.active, r.nasPath.value, r.sha.value) <==>
                r.sourceId in w.env.sources && h(w.env.sources[r.sourceId].content) == r.sha.value)
            && (Position(r.state) <= 17 && r.sourceId in w.env.sources
                && w.env.sources[r.sourceId].version == r.sourceVersion ==>
                Held(h, w.env.active, r.nasPath.value, r.sha.value))
  {
    hide Run;
    CheckpointsHold(h, events);
    var w := Run(h, EMPTY_WORLD, events);
    assert ItemOk(h, w.env, i, w.items[i]);
    var name := w.items[i].mem.sourceId.name;
    LibraryNameOfPath(name);
  }

  /** Nothing but the user's edits of that very library file changes it: no import, commit, adoption or
      deletion of any item. */
  lemma OnlyEditsChangeLibraryFiles(h: Hash, w: World, e: Event, name: string)
    requires e != Outside(SourceRemove(Library(name))) && !Overwrites(h, w, e)
    requires !(e.Outside? && e.outside.SourceWrite? && e.outside.sid == Library(name))
    ensures var p := LibraryPath(name);
            var w' := Step(h, w, e);
            && (p in w.env.active <==> p in w'.env.active)
            && (p in w.env.active ==> w'.env.active[p] == w.env.active[p])
  {
    hide CommitTarget, CollisionFree;
    LibraryNameOfPath(name);
    if e.Outside? && (e.outside.SourceWrite? || e.outside.SourceRemove?) && e.outside.sid.Library? {
      LibraryNameOfPath(e.outside.sid.name);
    }
  }

  // ----- commit_staged and the files of other items -----

  /** Committing keeps every file already in active storage exactly when no other bytes sit
      at the derived collision name; otherwise that file is overwritten. */
  lemma CommitKeepsFilesIffCollisionFree(h: Hash, active: map<Path, Bytes>, path: Path, content: Bytes)
    ensures var active' := CommittedActive(h, active, path, h(content), content);
            (forall p :: p in active ==> p in active' && active'[p] == active[p])
            <==> CollisionFree(h, active, path, h(content), content)
  {
    var target := CommitTarget(h, active, path, h(content), |content|);
    var active' := CommittedActive(h, active, path, h(content), content);
    if target != path && target in active && active[target] != content {
      assert active'[target] == content;
    }
  }

  /** Where a commit goes and what it writes: a free path is used as it is, a file that already holds the bytes
      is left where it is, and anything else at the path sends the bytes to the name with the first twelve
      characters of their digest between stem and suffix. */
  lemma CommitGoesWhere(h: Hash, active: map<Path, Bytes>, dir: Path, stem: string, suffix: string, content: Bytes)
    requires Parts(dir + stem + suffix, dir, stem, suffix) && |h(content)| >= 12
    ensures var path := dir + stem + suffix;
            var aside := dir + stem + ".mnema-" + h(content)[..12] + suffix;
            var target := CommitTarget(h, active, path, h(content), |content|);
            var active' := CommittedActive(h, active, path, h(content), content);
            && (path !in active ==> target == path && active' == active[path := content])
            && (path in active ==>
                  if |active[path]| == |content| && h(active[path]) == h(content)
                  then target == path && active' == active
                  else target == aside && active' == active[aside := content])
  {
    hide Parts, CollisionName;
    CollisionNameKeepsParts(dir + stem + suffix, dir, stem, suffix, h(content));
    CollisionNameIsLonger(dir + stem + suffix, h(content));
  }

  /** Two versions committed to one path, whose digests differ in the characters the name takes, are both kept,
      and so is every file that was there, as long as nothing foreign sits at either derived name. */
  lemma TwoVersionsAreKept(h: Hash, active: map<Path, Bytes>, path: Path, first: Bytes, second: Bytes)
    requires |h(first)| >= 12 && |h(second)| >= 12 && h(first)[..12] != h(second)[..12]
    requires CollisionName(path, h(first)) !in active && CollisionName(path, h(second)) !in active
    ensures var once := CommittedActive(h, active, path, h(first), first);
            var twice := CommittedActive(h, once, path, h(second), second);
            var p, q := CommitTarget(h, active, path, h(first), |first|), CommitTarget(h, once, path, h(second), |second|);
            && p != q
            && p in twice && h(twice[p]) == h(first) && q in twice && h(twice[q]) == h(second)
            && (forall o :: o in active ==> o in twice && twice[o] == active[o])
  {
    hide CollisionName;
    if CollisionName(path, h(first)) == CollisionName(path, h(second)) {
      CollisionNamesDiffer(path, h(first), h(second));
    }
    CollisionNameIsLonger(path, h(first));
    CollisionNameIsLonger(path, h(second));
  }

  /** A copy that some row relies on survives a commit exactly when the commit goes elsewhere or brings bytes
      of the same hash. */
  lemma CommitSparesCopyIff(h: Hash, active: map<Path, Bytes>, path: Path, content: Bytes, p: Path, d: Digest)
    requires Held(h, active, p, d)
    ensures Held(h, CommittedActive(h, active, path, h(content), content), p, d) <==>
            (p == CommitTarget(h, active, path, h(content), |content|) ==> h(content) == d)
  {
    CommitHoldsBytes(h, active, path, content);
  }

  lemma CollisionNameIsLonger(path: Path, d: Digest)
    ensures |path| < |CollisionName(path, d)|
  {
    assert DirectoryPart(path) + NamePart(path) == path;
    assert Stem(NamePart(path)) + Suffix(NamePart(path)) == NamePart(path);
  }

  /** Such a loss: a.jpg is taken, and so is the name its bytes would be committed under instead. */
  lemma CommitOverwrites(h: Hash, content: Bytes, other: Bytes, third: Bytes)
    requires |other| != |content| && third != content
    ensures var name := CollisionName("a.jpg", h(content));
            var active := map["a.jpg" := other, name := third];
            && !CollisionFree(h, active, "a.jpg", h(content), content)
            && CommittedActive(h, active, "a.jpg", h(content), content)
               == map["a.jpg" := other, name := content]
  {
    hide CollisionName;
    CollisionNameIsLonger("a.jpg", h(content));
  }

  /** Either way the committed bytes' hash is held where the receipt says. */
  lemma CommitHoldsBytes(h: Hash, active: map<Path, Bytes>, path: Path, content: Bytes)
    ensures var d := h(content);
            Held(h, CommittedActive(h, active, path, d, content), CommitTarget(h, active, path, d, |content|), d)
  {
  }

  // ----- Conformance with the state graph -----

  /** `s'` is reached from `s` by the valid transitions one step of the workflow makes. */
  predicate Connected(s: ArchiveState, s': ArchiveState) {
    || ValidTransition(s, s')
    || (s' == DOWNLOADING && ValidTransition(s, QUEUED) && ValidTransition(QUEUED, DOWNLOADING))
    || (s' == DELETING && s == QUARANTINED && ValidTransition(s, READY_FOR_REVALIDATION)
        && ValidTransition(READY_FOR_REVALIDATION, READY_FOR_DELETION) && ValidTransition(READY_FOR_DELETION, s'))
    || (s' == DELETING && s == READY_FOR_REVALIDATION && ValidTransition(s, READY_FOR_DELETION)
        && ValidTransition(READY_FOR_DELETION, s'))
    || (s' == ARCHIVED && ValidTransition(s, DELETED_FROM_SOURCE) && ValidTransition(DELETED_FROM_SOURCE, s'))
  }

  lemma StageFollowsTheGraph(h: Hash, env: Env, it: Item, s: StageStep)
    requires WorkOk(h, env, it)
    ensures Connected(it.mem.state, StageItem(h, env, it, s).mem.state)
  {
  }

  lemma ProtectFollowsTheGraph(h: Hash, active: map<Path, Bytes>, i: ItemId, it: Item, p: ProtectStep)
    ensures Connected(it.mem.state, ProtectItem(h, active, i, it, p).mem.state)
  {
  }

  lemma SettleFollowsTheGraph(h: Hash, env: Env, it: Item, s: SettleStep)
    requires WorkOk(h, env, it)
    ensures Connected(it.mem.state, SettleItem(it, s).mem.state)
  {
  }

  lemma DeletingFollowsTheGraph(s: ArchiveState)
    requires CanReachDeleting(s)
    ensures Connected(s, DELETING)
  {
    OnlyPredecessor(s, DELETING);
  }

  /** Apart from reloading a row, every step moves it only along transitions the graph
      allows, so each is a sequence of accepted transition_item calls. */
  lemma StepsFollowTheGraph(h: Hash, w: World, e: Event, i: ItemId)
    requires Inv(h, w) && i in w.items && i in Step(h, w, e).items
    requires e != Outside(Crash) && e != Rollback(i)
    ensures Connected(w.items[i].mem.state, Step(h, w, e).items[i].mem.state)
            || (e.DeleteBegin? && Step(h, w, e) == RollbackItem(w, i))
  {
    hide StageItem, ProtectItem, SettleItem, RollbackItem;
    if e.Outside? || e.i != i {
      OutsideLeavesItem(h, w, e, i);
    } else {
      var it := w.items[i];
      assert ItemOk(h, w.env, i, it);
      match e
      case Stage(_, s) => StageFollowsTheGraph(h, w.env, it, s);
      case Protect(_, p) => ProtectFollowsTheGraph(h, w.env.active, i, it, p);
      case Settle(_, s) => SettleFollowsTheGraph(h, w.env, it, s);
      case DeleteBegin(_, _) =>
        if CanReachDeleting(it.mem.state) {
          DeletingFollowsTheGraph(it.mem.state);
        }
      case _ =>
    }
  }

  // ----- What ends a session -----

  /** A process that dies and is started again: every committed item is as it was committed, except that a
      deletion in doubt is set aside for review and a download or restore failed for a retry. Files stay. */
  lemma RestartRecovers(h: Hash, w: World, i: ItemId)
    ensures i in Step(h, w, Outside(Crash)).items <==> i in w.items && w.items[i].db.Some?
    ensures i in w.items && w.items[i].db.Some? ==>
              var v, was := Step(h, Step(h, w, Outside(Crash)), Settle(i, Recover)), w.items[i].db.value;
              var row := was.(state := if was.state == DELETING then ManualReview
                                       else if was.state == DOWNLOADING || was.state.Restoring? then FailedRetryable
                                       else was.state);
              && v.env == w.env && v.log == w.log && i in v.items
              && v.items[i] == w.items[i].(mem := row, db := Some(row), work := Idle, decision := false)
  {
    hide StageItem, ProtectItem, CommitFileStep, DeleteBeginStep, DeleteCheckStep, DeleteCallStep, GateSaysYes,
         SourceWritten, SourceRemoved, Audit.Recovered;
    if i in w.items && w.items[i].db.Some? {
      var it := w.items[i];
      var v := Step(h, w, Outside(Crash));
      assert v.items[i] == it.(mem := it.db.value, work := Idle, decision := false);
      Audit.RecoveryByState(it.db.value.state, false, false);
    }
  }

  /** A commit makes the row durable as it is; a rollback takes it back to the last commit, and with it an item
      that was never committed. */
  lemma SessionEnds(h: Hash, w: World, i: ItemId)
    requires i in w.items && w.items[i].work.Idle?
    ensures Step(h, w, Settle(i, Commit)) == w.(items := w.items[i := w.items[i].(db := Some(w.items[i].mem))])
    ensures w.items[i].db.None? ==> Step(h, w, Rollback(i)) == w.(items := w.items - {i})
    ensures w.items[i].db.Some? ==>
              Step(h, w, Rollback(i))
              == w.(items := w.items[i := w.items[i].(mem := w.items[i].db.value, decision := false)])
  {
  }

  /** What the user may do to the source: put an object of a new version under any identifier, or take one away.
      A library object is a file of active storage at its own path; nothing else there changes. */
  lemma UserEdits(h: Hash, w: World, sid: SourceId, obj: SourceObject)
    ensures var v := Step(h, w, Outside(SourceWrite(sid, obj)));
            if (sid, obj.version) in w.env.seen || (sid.Library? && obj.path != "iCloud Photos/" + sid.name) then v == w
            else && v.env.sources == w.env.sources[sid := obj] && v.env.seen == w.env.seen + {(sid, obj.version)}
                 && v.env.active == (if sid.Library? then w.env.active["iCloud Photos/" + sid.name := obj.content] else w.env.active)
                 && v.items == w.items && v.log == w.log
    ensures var v := Step(h, w, Outside(SourceRemove(sid)));
            && v.env.sources == w.env.sources - {sid} && v.env.seen == w.env.seen
            && v.env.active == (if sid.Library? then w.env.active - {"iCloud Photos/" + sid.name} else w.env.active)
            && v.items == w.items && v.log == w.log
  {
  }
}
