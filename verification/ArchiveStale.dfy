/** Receipts are never cleared when a source changes, so the deletion gate alone can say yes
    to a source whose bytes no store holds; the state graph is what stops the deletion. */
module ArchiveStale {
  import opened Basics
  import opened States
  import opened Gate
  import opened Archive
  import opened ArchiveSafety
  import opened ArchiveResume

  const CALM := GateContext(true, true, true, true, true, true, true, false, false, false,
                            DeletionRunUsage(0, 0, 1), DeletionLimits(5, 1_000_000_000, 100.0), 10)

  const PHOTO := Separate("photo.jpg")

  function Photo(version: Version, modified: int, content: Bytes): SourceObject {
    SourceObject("photo.jpg", modified, version, content)
  }

  /** The events of one worker on the one item, and nothing in between. */
  predicate Solo(e: Event) {
    if e.Outside? then e.outside.SourceWrite? || (e.outside.DiscoverNew? && e.outside.i == 0)
    else e.i == 0 && (e.Stage? || e.CommitFile? || e.Protect?)
  }

  /** The first version committed, and no copy of it made yet. */
  predicate CommittedPhoto(h: Hash, w: World, first: Bytes) {
    && w.env == Env(map["photo.jpg" := first], map[PHOTO := Photo("v1", 1, first)], {(PHOTO, "v1")})
    && w.items.Keys == {0} && w.log == [] && At(w.items[0], LOCAL_COMMITTED)
    && var it := w.items[0];
    && it.mem.sourceId == PHOTO && SourceMatches(it.mem, Photo("v1", 1, first))
    && it.mem.sha == Some(h(first)) && it.mem.nasPath == Some("photo.jpg")
    && it.snapshot.None? && !it.snapshotPartial && it.coldCopy.None? && !it.coldPartial
  }

  /** A run that archives the first version of photo.jpg as far as LOCAL_COMMITTED. */
  lemma ArchiveFirstVersion(h: Hash, first: Bytes) returns (events: seq<Event>, w: World)
    ensures w == Run(h, EMPTY_WORLD, events) && NothingOverwritten(h, EMPTY_WORLD, events)
    ensures forall k :: 0 <= k < |events| ==> Solo(events[k])
    ensures CommittedPhoto(h, w, first)
  {
    var staged := DownloadFirstVersion(h, first);
    events := staged;
    w := Run(h, EMPTY_WORLD, staged);
    hide Run, NothingOverwritten;
    StageStepIs(h, EMPTY_WORLD, events, 0, VerifyStaged);
    events := events + [Stage(0, VerifyStaged)];
    CommitFileIs(h, EMPTY_WORLD, events, 0);
    events := events + [CommitFile(0)];
    StageStepIs(h, EMPTY_WORLD, events, 0, CommitRow);
    events := events + [Stage(0, CommitRow)];
    w := Run(h, EMPTY_WORLD, events);
  }

  lemma DiscoverFirstVersion(h: Hash, first: Bytes) returns (events: seq<Event>)
    ensures NothingOverwritten(h, EMPTY_WORLD, events) && forall k :: 0 <= k < |events| ==> Solo(events[k])
    ensures Run(h, EMPTY_WORLD, events) ==
            World(Env(map[], map[PHOTO := Photo("v1", 1, first)], {(PHOTO, "v1")}),
                  map[0 := Item(NewRow(PHOTO, Photo("v1", 1, first), true), None,
                                None, None, false, None, false, Idle, false)], [])
  {
    assert Run(h, EMPTY_WORLD, []) == EMPTY_WORLD && NothingOverwritten(h, EMPTY_WORLD, []);
    hide Run, NothingOverwritten;
    RunAppend(h, EMPTY_WORLD, [], Outside(SourceWrite(PHOTO, Photo("v1", 1, first))));
    events := [] + [Outside(SourceWrite(PHOTO, Photo("v1", 1, first)))];
    RunAppend(h, EMPTY_WORLD, events, Outside(DiscoverNew(0, PHOTO, true)));
    events := events + [Outside(DiscoverNew(0, PHOTO, true))];
  }

  lemma DownloadFirstVersion(h: Hash, first: Bytes) returns (events: seq<Event>)
    ensures NothingOverwritten(h, EMPTY_WORLD, events) && forall k :: 0 <= k < |events| ==> Solo(events[k])
    ensures var w := Run(h, EMPTY_WORLD, events);
            && w.env == Env(map[], map[PHOTO := Photo("v1", 1, first)], {(PHOTO, "v1")})
            && w.items.Keys == {0} && w.log == [] && At(w.items[0], LOCAL_STAGED)
            && var it := w.items[0];
            && it.staged == Some(first) && it.mem.sha == Some(h(first))
            && it.mem.sourceId == PHOTO && SourceMatches(it.mem, Photo("v1", 1, first))
            && it.snapshot.None? && !it.snapshotPartial && it.coldCopy.None? && !it.coldPartial
  {
    hide Run, NothingOverwritten, Step;
    events := DiscoverFirstVersion(h, first);
    StageStepIs(h, EMPTY_WORLD, events, 0, ArchiveBegin);
    events := events + [Stage(0, ArchiveBegin)];
    StageStepIs(h, EMPTY_WORLD, events, 0, DownloadStart);
    events := events + [Stage(0, DownloadStart)];
    StageStepIs(h, EMPTY_WORLD, events, 0, DownloadChunk(|first|, []));
    events := events + [Stage(0, DownloadChunk(|first|, []))];
    assert [] + first[0..|first|] == first;
    StageStepIs(h, EMPTY_WORLD, events, 0, DownloadFinish);
    events := events + [Stage(0, DownloadFinish)];
  }

  /** The copies of an item all differ from what the source now holds. */
  predicate NoCopyOfSource(h: Hash, w: World, i: ItemId) {
    && i in w.items
    && var it := w.items[i];
    && it.mem.sourceId in w.env.sources
    && var d := h(w.env.sources[it.mem.sourceId].content);
    && (forall p :: p in w.env.active ==> h(w.env.active[p]) != d)
    && (it.snapshot.Some? ==> h(it.snapshot.value) != d)
    && (it.coldCopy.Some? ==> h(it.coldCopy.value) != d)
  }

  /** The first version in all three places and cold-archived, with its receipts. */
  predicate ColdArchivedPhoto(h: Hash, w: World, first: Bytes) {
    && w.env == Env(map["photo.jpg" := first], map[PHOTO := Photo("v1", 1, first)], {(PHOTO, "v1")})
    && w.items.Keys == {0} && w.items[0].work.Idle? && w.log == []
    && var it := w.items[0];
    && it.db == Some(it.mem)
    && it.mem.sourceId == PHOTO && it.mem.nasPath == Some("photo.jpg") && it.mem.sha == Some(h(first))
    && SourceMatches(it.mem, Photo("v1", 1, first))
    && it.mem.kopiaVerifiedAt == Some(1) && it.mem.remoteVerifiedAt == Some(1)
    && it.snapshot.Some? && h(it.snapshot.value) == h(first)
    && it.coldCopy.Some? && h(it.coldCopy.value) == h(first)
  }

  function ColdArchivedItem(h: Hash, active: map<Path, Bytes>, it: Item): Item {
    var uploaded := UploadPhase(h, active, 0, BackupPhase(h, active, 0, it, 1), 1);
    ProtectItem(h, active, 0, ProtectItem(h, active, 0, uploaded, ArchivePending), ColdArchive(1))
  }

  const COLD_ARCHIVE_EVENTS: seq<Event> :=
    BackupEvents(0, 1) + UploadEvents(0, 1) + [Protect(0, ArchivePending)] + [Protect(0, ColdArchive(1))]

  lemma ColdArchiveRuns(h: Hash, w: World)
    requires 0 in w.items
    ensures Run(h, w, COLD_ARCHIVE_EVENTS) == Put(w, 0, ColdArchivedItem(h, w.env.active, w.items[0]))
  {
    hide Run, ProtectItem, BackupPhase, UploadPhase, Put;
    var active := w.env.active;
    BackupEventsRun(h, w, 0, 1);
    var backed := BackupPhase(h, active, 0, w.items[0], 1);
    var uploaded := UploadPhase(h, active, 0, backed, 1);
    PutAgain(w, 0, backed, uploaded);
    UploadEventsRun(h, Put(w, 0, backed), 0, 1);
    RunConcat(h, w, BackupEvents(0, 1), UploadEvents(0, 1));
    ProtectNext(h, w, BackupEvents(0, 1) + UploadEvents(0, 1), 0, uploaded, ArchivePending);
    ProtectNext(h, w, BackupEvents(0, 1) + UploadEvents(0, 1) + [Protect(0, ArchivePending)], 0,
                ProtectItem(h, active, 0, uploaded, ArchivePending), ColdArchive(1));
  }

  lemma ColdArchivedItemIs(h: Hash, env: Env, it: Item)
    requires ItemOk(h, env, 0, it) && At(it, LOCAL_COMMITTED)
    requires SnapshotUsable(h, env.active, it) && ColdCopyUsable(h, env.active, it)
    ensures var it' := ColdArchivedItem(h, env.active, it);
            && At(it', COLD_ARCHIVED) && ItemOk(h, env, 0, it') && SameIdentity(it, it')
            && FreshReceipts(it.mem, it'.mem, 1, 5)
  {
    assert it.mem.nasPath.Some? && it.mem.sha.Some?;
    hide ItemOk, ProtectItem, BackupPhase, UploadPhase, FreshReceipts;
    BackupPhaseSafe(h, env, 0, it, 1);
    BackupProgress(h, env.active, 0, it, 1);
    var backed := BackupPhase(h, env.active, 0, it, 1);
    UploadPhaseSafe(h, env, 0, backed, 1);
    UploadProgress(h, env.active, 0, backed, 1);
    var uploaded := UploadPhase(h, env.active, 0, backed, 1);
    FreshStart(it.mem, 1, 5);
    BackupReceipts(h, env.active, 0, it.mem, it, 1, 5);
    UploadReceipts(h, env.active, 0, it.mem, backed, 1, 5);
    var parked := Safely(h, env, 0, uploaded, ArchivePending);
    var _ := StepReceipts(h, env.active, 0, it.mem, uploaded, ArchivePending, 1, 5);
    StateAfter(h, env.active, 0, uploaded, ArchivePending);
    var _ := Safely(h, env, 0, parked, ColdArchive(1));
    var _ := StepReceipts(h, env.active, 0, it.mem, parked, ColdArchive(1), 1, 5);
    ColdArchiveResult(h, env, parked);
  }

  lemma ColdArchiveResult(h: Hash, env: Env, it: Item)
    requires ItemOk(h, env, 0, it) && At(it, COLD_ARCHIVE_PENDING)
    ensures At(ProtectItem(h, env.active, 0, it, ColdArchive(1)), COLD_ARCHIVED)
  {
  }

  lemma PhotoColdArchived(h: Hash, w: World, first: Bytes)
    requires CommittedPhoto(h, w, first) && ItemOk(h, w.env, 0, w.items[0])
    ensures var w' := Put(w, 0, ColdArchivedItem(h, w.env.active, w.items[0]));
            ColdArchivedPhoto(h, w', first) && w'.items[0].mem.state == COLD_ARCHIVED
  {
    var it' := ColdArchivedItem(h, w.env.active, w.items[0]);
    hide ColdArchivedItem;
    ColdArchivedItemIs(h, w.env, w.items[0]);
    assert ItemOk(h, w.env, 0, it');
  }

  lemma ColdArchiveEventsAreSolo()
    ensures forall k :: 0 <= k < |COLD_ARCHIVE_EVENTS| ==> Solo(COLD_ARCHIVE_EVENTS[k])
  {
  }

  lemma ColdArchiveFirstVersion(h: Hash, first: Bytes) returns (events: seq<Event>)
    ensures forall k :: 0 <= k < |events| ==> Solo(events[k])
    ensures var w := Run(h, EMPTY_WORLD, events);
            ColdArchivedPhoto(h, w, first) && w.items[0].mem.state == COLD_ARCHIVED
  {
    var committed, w := ArchiveFirstVersion(h, first);
    CheckpointsHold(h, committed);
    hide Run, NothingOverwritten, ColdArchivedItem, ColdArchivedPhoto, Put, ItemOk, Solo, COLD_ARCHIVE_EVENTS;
    ColdArchiveRuns(h, w);
    PhotoColdArchived(h, w, first);
    RunConcat(h, EMPTY_WORLD, committed, COLD_ARCHIVE_EVENTS);
    ColdArchiveEventsAreSolo();
    events := committed + COLD_ARCHIVE_EVENTS;
  }

  /** The fully archived first version, with all its receipts. */
  lemma QuarantineFirstVersion(h: Hash, first: Bytes) returns (events: seq<Event>)
    ensures var w := Run(h, EMPTY_WORLD, events);
            ColdArchivedPhoto(h, w, first) && w.items[0].mem.quarantineExpiresAt == Some(5)
  {
    hide Run, NothingOverwritten;
    events := ColdArchiveFirstVersion(h, first);
    ProtectStepIs(h, EMPTY_WORLD, events, 0, Quarantine(5));
    events := events + [Protect(0, Quarantine(5))];
  }

  /** Archive one version, replace it by another of the same size, rediscover: the gate finds
      every receipt in place and the source unchanged, although nothing holds its new bytes. */
  lemma StaleReceiptsPassTheGate(h: Hash, first: Bytes, second: Bytes) returns (events: seq<Event>)
    requires |first| == |second| && |first| <= 1_000_000_000 && h(first) != h(second)
    ensures var w := Run(h, EMPTY_WORLD, events);
            && NoCopyOfSource(h, w, 0)
            && GateSaysYes(h, w.env, w.items[0].mem, CALM)
            && w.items[0].mem.state == SourceChanged && w.items[0].work.Idle?
  {
    hide Run, NothingOverwritten;
    events := QuarantineFirstVersion(h, first);
    var write := Outside(SourceWrite(PHOTO, Photo("v2", 2, second)));
    RunAppend(h, EMPTY_WORLD, events, write);
    events := events + [write];
    StageStepIs(h, EMPTY_WORLD, events, 0, DiscoverKnown(true));
    events := events + [Stage(0, DiscoverKnown(true))];
  }

  /** Whatever the gate said, a row outside the last stretch of the graph never gets a delete
      call: beginning the deletion leaves it without a DELETING row. */
  lemma GraphStopsStaleDeletion(h: Hash, w: World, i: ItemId, canDelete: bool)
    requires i in w.items && w.items[i].work.Idle? && !(14 <= Position(w.items[i].mem.state) <= 17)
    ensures var w' := Step(h, w, DeleteBegin(i, canDelete));
            i in w'.items ==> !w'.items[i].work.DeleteReady?
  {
    OnlyPredecessor(w.items[i].mem.state, DELETING);
  }
}
