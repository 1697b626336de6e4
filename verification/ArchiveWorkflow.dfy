/** ArchiveWorkflow as code: archive, deletion_decision and delete_test_item
    (src/mnema/domain/workflow.py). Every call is a run of the archive machine, so whatever
    that machine keeps, these methods keep, whichever external calls fail. */
module ArchiveWorkflow {
  import opened Basics
  import opened States
  import opened Gate
  import opened Archive
  import opened ArchiveSafety
  import opened ArchiveResume
  import opened ArchiveDecisions
  import Names

  const CHUNK: nat := 1048576

  /** Events of archive() on one item, and edits of the source while it runs. */
  predicate Archiving(trace: seq<Event>, i: ItemId) {
    forall k :: 0 <= k < |trace| ==>
      if trace[k].Outside? then trace[k].outside.SourceWrite? || trace[k].outside.SourceRemove?
      else
        && (trace[k].Stage? || trace[k].CommitFile? || trace[k].Protect?) && trace[k].i == i
        && (trace[k].Stage? ==> !trace[k].stage.DiscoverKnown?)
  }

  /** The facts of a decision do not depend on the model's record of seen versions. */
  lemma FactsIgnoreSeen(h: Hash, active: map<Path, Bytes>, sources: map<SourceId, SourceObject>,
                        seen: set<(SourceId, Version)>, r: Row, ctx: GateContext)
    ensures GateSaysYes(h, Env(active, sources, seen), r, ctx) == GateSaysYes(h, Env(active, sources, {}), r, ctx)
  {
  }

  /** States archive() queues and starts downloading from. */
  predicate CanBegin(s: ArchiveState) {
    s == ELIGIBLE || s == QUEUED || FailureTarget(s)
  }

  /** States archive() does something in. */
  predicate Workable(s: ArchiveState) {
    CanBegin(s) || 3 <= Position(s) <= 14
  }

  /** The item with this row in memory and committed. */
  function CommittedAs(it: Item, r: Row): Item {
    it.(mem := r, db := Some(r))
  }

  class Workflow {
    var active: map<Path, Bytes>
    var sources: map<SourceId, SourceObject>
    var items: map<ItemId, Item>
    var seen: set<(SourceId, Version)>
    ghost var log: seq<Deletion>

    ghost function Now(): World
      reads this
    {
      World(Env(active, sources, seen), items, log)
    }

    /** What active storage holds at the row's path. */
    function FileOf(r: Row): Option<Bytes>
      reads this
    {
      if r.nasPath.Some? && r.nasPath.value in active then Some(active[r.nasPath.value]) else None
    }

    // ----- LOCAL_COMMITTED to LOCAL_BACKUP_VERIFIED -----

    /** The adapter's snapshot: write a temporary file exclusively, then rename it. */
    method Snapshot(h: Hash, i: ItemId, working: bool, ghost start: World, ghost past: seq<Event>)
        returns (raised: bool, ghost trace: seq<Event>)
      requires i in items && At(items[i], LOCAL_BACKUP_PENDING)
      requires Now() == Run(h, start, past) && Archiving(past, i)
      modifies this`items
      ensures Now() == Run(h, start, trace) && Archiving(trace, i)
      ensures i in items && At(items[i], LOCAL_BACKUP_PENDING)
      ensures !raised ==> items[i].snapshot.Some?
      ensures working ==>
        && items[i] == ProtectItem(h, active, i, ProtectItem(h, active, i, old(items[i]), SnapshotBegin), SnapshotPublish)
        && (raised <==> items[i].snapshot.None?)
      ensures !raised && old(items[i].snapshot).Some? ==> items[i] == old(items[i])
      ensures !raised && old(items[i].snapshot).None? ==>
        && FileOf(items[i].mem).Some? && !old(items[i].snapshotPartial)
        && items[i] == old(items[i]).(snapshot := FileOf(items[i].mem))
      ensures raised ==> items[i] == old(items[i]).(snapshotPartial := items[i].snapshotPartial)
      ensures raised && working ==> items[i].snapshotPartial || FileOf(items[i].mem).None?
    {
      hide Run;
      var it := items[i];
      trace := past;
      if it.snapshot.Some? {
        return false, trace;
      }
      if it.snapshotPartial || it.mem.nasPath.None? || it.mem.nasPath.value !in active {
        return true, trace;
      }
      ProtectStepIs(h, start, trace, i, SnapshotBegin);
      trace := trace + [Protect(i, SnapshotBegin)];
      it := it.(snapshotPartial := true, work := CopyingSnapshot);
      items := items[i := it];
      var fails: bool := *;
      if !working && fails {
        StageStepIs(h, start, trace, i, Abort);
        trace := trace + [Stage(i, Abort)];
        items := items[i := it.(work := Idle)];
        return true, trace;
      }
      ProtectStepIs(h, start, trace, i, SnapshotPublish);
      trace := trace + [Protect(i, SnapshotPublish)];
      items := items[i := it.(snapshot := Some(active[it.mem.nasPath.value]), snapshotPartial := false, work := Idle)];
      raised := false;
    }

    method BackupPendingBlock(h: Hash, i: ItemId, ghost start: World, ghost past: seq<Event>) returns (ghost trace: seq<Event>)
      requires i in items && items[i].work.Idle?
      requires Now() == Run(h, start, past) && Archiving(past, i)
      modifies this`items
      ensures Now() == Run(h, start, trace) && Archiving(trace, i)
      ensures i in items && items[i].work.Idle?
      ensures items[i] == if old(items[i].mem.state) == LOCAL_COMMITTED then CommittedAs(old(items[i]), old(items[i]).mem.(state := LOCAL_BACKUP_PENDING))
                          else old(items[i])
      ensures items[i] == ProtectItem(h, active, i, old(items[i]), BackupPending)
    {
      hide Run;
      trace := past;
      var it := items[i];
      if it.mem.state == LOCAL_COMMITTED {
        ProtectStepIs(h, start, trace, i, BackupPending);
        trace := trace + [Protect(i, BackupPending)];
        items := items[i := Saved(it, it.mem.(state := LOCAL_BACKUP_PENDING))];
      }
    }

    /** Snapshots unless the snapshot exists, and verifies it by restoring. */
    method BackupBlock(h: Hash, i: ItemId, working: bool, now: int, ghost start: World, ghost past: seq<Event>)
        returns (raised: bool, ghost trace: seq<Event>)
      requires i in items && items[i].work.Idle?
      requires Now() == Run(h, start, past) && Archiving(past, i)
      modifies this`items
      ensures Now() == Run(h, start, trace) && Archiving(trace, i)
      ensures i in items && items[i].work.Idle?
      ensures !raised && old(items[i].mem.state) == LOCAL_BACKUP_PENDING ==>
        && items[i].snapshot == (if old(items[i].snapshot).Some? then old(items[i].snapshot) else FileOf(old(items[i].mem)))
        && items[i].snapshot.Some? && old(items[i].mem.sha) == Some(h(items[i].snapshot.value))
        && items[i] == CommittedAs(old(items[i]).(snapshot := items[i].snapshot),
                                 old(items[i]).mem.(snapshotId := Some(i), kopiaVerifiedAt := Some(now),
                                                    state := LOCAL_BACKUP_VERIFIED))
      ensures raised ==> items[i].mem == old(items[i].mem) && items[i].db == old(items[i].db)
      ensures raised ==> items[i].mem.state == LOCAL_BACKUP_PENDING
      ensures !raised && old(items[i].mem.state) == LOCAL_BACKUP_PENDING ==> items[i].mem.state == LOCAL_BACKUP_VERIFIED
      ensures old(items[i].mem.state) != LOCAL_BACKUP_PENDING ==> items[i] == old(items[i])
      ensures working ==> items[i] == BackupRecorded(h, active, i, old(items[i]), now)
    {
      hide Run;
      trace := past;
      raised := false;
      if items[i].mem.state == LOCAL_BACKUP_PENDING {
        raised, trace := Snapshot(h, i, working, start, trace);
        var it := items[i];
        var fails: bool := *;
        if raised || (!working && fails) || it.mem.sha != Some(h(it.snapshot.value)) {
          return true, trace;
        }
        ProtectStepIs(h, start, trace, i, BackupConfirm(now));
        trace := trace + [Protect(i, BackupConfirm(now))];
        items := items[i := Saved(it, it.mem.(snapshotId := Some(i), kopiaVerifiedAt := Some(now), state := LOCAL_BACKUP_VERIFIED))];
      }
    }

    // ----- LOCAL_BACKUP_VERIFIED to COLD_VERIFIED -----

    /** The adapter's upload: encrypt into a temporary file, then rename it. */
    method Upload(h: Hash, i: ItemId, working: bool, ghost start: World, ghost past: seq<Event>)
        returns (raised: bool, ghost trace: seq<Event>)
      requires i in items && At(items[i], COLD_UPLOAD_PENDING)
      requires Now() == Run(h, start, past) && Archiving(past, i)
      modifies this`items
      ensures Now() == Run(h, start, trace) && Archiving(trace, i)
      ensures i in items && At(items[i], COLD_UPLOAD_PENDING)
      ensures !raised ==> items[i].coldCopy.Some?
      ensures working ==>
        && items[i] == ProtectItem(h, active, i, ProtectItem(h, active, i, old(items[i]), UploadBegin), UploadPublish)
        && (raised <==> items[i].coldCopy.None?)
      ensures !raised && old(items[i].coldCopy).Some? ==> items[i] == old(items[i])
      ensures !raised && old(items[i].coldCopy).None? ==>
        && FileOf(items[i].mem).Some? && !old(items[i].coldPartial)
        && items[i] == old(items[i]).(coldCopy := FileOf(items[i].mem))
      ensures raised ==> items[i] == old(items[i]).(coldPartial := items[i].coldPartial)
      ensures raised && working ==> items[i].coldPartial || FileOf(items[i].mem).None?
    {
      hide Run;
      var it := items[i];
      trace := past;
      if it.coldCopy.Some? {
        return false, trace;
      }
      if it.coldPartial || it.mem.nasPath.None? || it.mem.nasPath.value !in active {
        return true, trace;
      }
      ProtectStepIs(h, start, trace, i, UploadBegin);
      trace := trace + [Protect(i, UploadBegin)];
      it := it.(coldPartial := true, work := CopyingObject);
      items := items[i := it];
      var fails: bool := *;
      if !working && fails {
        StageStepIs(h, start, trace, i, Abort);
        trace := trace + [Stage(i, Abort)];
        items := items[i := it.(work := Idle)];
        return true, trace;
      }
      ProtectStepIs(h, start, trace, i, UploadPublish);
      trace := trace + [Protect(i, UploadPublish)];
      items := items[i := it.(coldCopy := Some(active[it.mem.nasPath.value]), coldPartial := false, work := Idle)];
      raised := false;
    }

    method ColdPendingBlock(h: Hash, i: ItemId, ghost start: World, ghost past: seq<Event>) returns (ghost trace: seq<Event>)
      requires i in items && items[i].work.Idle?
      requires Now() == Run(h, start, past) && Archiving(past, i)
      modifies this`items
      ensures Now() == Run(h, start, trace) && Archiving(trace, i)
      ensures i in items && items[i].work.Idle?
      ensures items[i] == if old(items[i].mem.state) == LOCAL_BACKUP_VERIFIED then CommittedAs(old(items[i]), old(items[i]).mem.(state := COLD_UPLOAD_PENDING))
                          else old(items[i])
      ensures items[i] == ProtectItem(h, active, i, old(items[i]), ColdPending)
    {
      hide Run;
      trace := past;
      var it := items[i];
      if it.mem.state == LOCAL_BACKUP_VERIFIED {
        ProtectStepIs(h, start, trace, i, ColdPending);
        trace := trace + [Protect(i, ColdPending)];
        items := items[i := Saved(it, it.mem.(state := COLD_UPLOAD_PENDING))];
      }
    }

    /** Uploads unless the object exists, and records its receipt. */
    method UploadBlock(h: Hash, i: ItemId, working: bool, ghost start: World, ghost past: seq<Event>)
        returns (raised: bool, ghost trace: seq<Event>)
      requires i in items && items[i].work.Idle?
      requires Now() == Run(h, start, past) && Archiving(past, i)
      modifies this`items
      ensures Now() == Run(h, start, trace) && Archiving(trace, i)
      ensures i in items && items[i].work.Idle?
      ensures !raised && old(items[i].mem.state) == COLD_UPLOAD_PENDING ==>
        && items[i].coldCopy == (if old(items[i].coldCopy).Some? then old(items[i].coldCopy) else FileOf(old(items[i].mem)))
        && items[i].coldCopy.Some?
        && items[i] == CommittedAs(old(items[i]).(coldCopy := items[i].coldCopy),
                                 old(items[i]).mem.(remote := Some(i), state := COLD_UPLOADED))
      ensures raised ==> items[i].mem == old(items[i].mem) && items[i].db == old(items[i].db)
      ensures raised ==> items[i].mem.state == COLD_UPLOAD_PENDING
      ensures !raised && old(items[i].mem.state) == COLD_UPLOAD_PENDING ==> items[i].mem.state == COLD_UPLOADED
      ensures old(items[i].mem.state) != COLD_UPLOAD_PENDING ==> items[i] == old(items[i])
      ensures working ==> items[i] == UploadRecorded(h, active, i, old(items[i]))
    {
      hide Run;
      trace := past;
      raised := false;
      if items[i].mem.state == COLD_UPLOAD_PENDING {
        raised, trace := Upload(h, i, working, start, trace);
        var it := items[i];
        var fails: bool := *;
        if raised || (!working && fails) {
          return true, trace;
        }
        ProtectStepIs(h, start, trace, i, ColdRecord);
        trace := trace + [Protect(i, ColdRecord)];
        items := items[i := Saved(it, it.mem.(remote := Some(i), state := COLD_UPLOADED))];
      }
    }

    /** Downloads the cold object back and compares its plaintext hash. */
    method ColdVerifyBlock(h: Hash, i: ItemId, working: bool, now: int, ghost start: World, ghost past: seq<Event>)
        returns (raised: bool, ghost trace: seq<Event>)
      requires i in items && items[i].work.Idle?
      requires Now() == Run(h, start, past) && Archiving(past, i)
      modifies this`items
      ensures Now() == Run(h, start, trace) && Archiving(trace, i)
      ensures i in items && items[i].work.Idle?
      ensures !raised && old(items[i].mem.state) == COLD_UPLOADED ==>
        && items[i].mem.remote == Some(i)
        && items[i].coldCopy.Some? && items[i].mem.sha == Some(h(items[i].coldCopy.value))
        && items[i] == CommittedAs(old(items[i]), old(items[i]).mem.(remoteVerifiedAt := Some(now), state := COLD_VERIFIED))
      ensures raised ==> items[i] == old(items[i])
      ensures raised ==> items[i].mem.state == COLD_UPLOADED
      ensures !raised ==> items[i].mem.state != COLD_UPLOADED
      ensures old(items[i].mem.state) != COLD_UPLOADED ==> items[i] == old(items[i])
      ensures !raised && old(items[i].mem.state) == COLD_UPLOADED ==> items[i].mem.state == COLD_VERIFIED
      ensures working ==> items[i] == ProtectItem(h, active, i, old(items[i]), ColdVerify(now))
    {
      hide Run;
      trace := past;
      var it := items[i];
      if it.mem.state == COLD_UPLOADED {
        var fails: bool := *;
        if (!working && fails) || it.mem.remote != Some(i) || it.coldCopy.None?
           || it.mem.sha != Some(h(it.coldCopy.value)) {
          return true, trace;
        }
        ProtectStepIs(h, start, trace, i, ColdVerify(now));
        trace := trace + [Protect(i, ColdVerify(now))];
        items := items[i := Saved(it, it.mem.(remoteVerifiedAt := Some(now), state := COLD_VERIFIED))];
      }
      raised := false;
    }

    // ----- COLD_VERIFIED to QUARANTINED -----

    method ArchivePendingBlock(h: Hash, i: ItemId, ghost start: World, ghost past: seq<Event>) returns (ghost trace: seq<Event>)
      requires i in items && items[i].work.Idle?
      requires Now() == Run(h, start, past) && Archiving(past, i)
      modifies this`items
      ensures Now() == Run(h, start, trace) && Archiving(trace, i)
      ensures i in items && items[i].work.Idle?
      ensures items[i] == if old(items[i].mem.state) == COLD_VERIFIED then CommittedAs(old(items[i]), old(items[i]).mem.(state := COLD_ARCHIVE_PENDING))
                          else old(items[i])
      ensures items[i] == ProtectItem(h, active, i, old(items[i]), ArchivePending)
    {
      hide Run;
      trace := past;
      var it := items[i];
      if it.mem.state == COLD_VERIFIED {
        ProtectStepIs(h, start, trace, i, ArchivePending);
        trace := trace + [Protect(i, ArchivePending)];
        items := items[i := Saved(it, it.mem.(state := COLD_ARCHIVE_PENDING))];
      }
    }

    /** The storage-class transition of the verified object. */
    method ColdArchiveBlock(h: Hash, i: ItemId, working: bool, now: int, ghost start: World, ghost past: seq<Event>)
        returns (raised: bool, ghost trace: seq<Event>)
      requires i in items && items[i].work.Idle?
      requires Now() == Run(h, start, past) && Archiving(past, i)
      modifies this`items
      ensures Now() == Run(h, start, trace) && Archiving(trace, i)
      ensures i in items && items[i].work.Idle?
      ensures !raised && old(items[i].mem.state) == COLD_ARCHIVE_PENDING ==>
        && items[i].mem.remote.Some?
        && items[i] == CommittedAs(old(items[i]), old(items[i]).mem.(coldArchivedAt := Some(now), state := COLD_ARCHIVED))
      ensures raised ==> items[i] == old(items[i])
      ensures raised ==> items[i].mem.state == COLD_ARCHIVE_PENDING
      ensures !raised && old(items[i].mem.state) == COLD_ARCHIVE_PENDING ==> items[i].mem.state == COLD_ARCHIVED
      ensures old(items[i].mem.state) != COLD_ARCHIVE_PENDING ==> items[i] == old(items[i])
      ensures working ==> items[i] == ProtectItem(h, active, i, old(items[i]), ColdArchive(now))
    {
      hide Run;
      trace := past;
      raised := false;
      var it := items[i];
      if it.mem.state == COLD_ARCHIVE_PENDING {
        var fails: bool := *;
        if (!working && fails) || it.mem.remote.None? {
          return true, trace;
        }
        ProtectStepIs(h, start, trace, i, ColdArchive(now));
        trace := trace + [Protect(i, ColdArchive(now))];
        items := items[i := Saved(it, it.mem.(coldArchivedAt := Some(now), state := COLD_ARCHIVED))];
      }
    }

    method QuarantineBlock(h: Hash, i: ItemId, until: int, ghost start: World, ghost past: seq<Event>)
        returns (ghost trace: seq<Event>)
      requires i in items && items[i].work.Idle?
      requires Now() == Run(h, start, past) && Archiving(past, i)
      modifies this`items
      ensures Now() == Run(h, start, trace) && Archiving(trace, i)
      ensures i in items && items[i].work.Idle?
      ensures items[i] == if old(items[i].mem.state) == COLD_ARCHIVED then CommittedAs(old(items[i]), old(items[i]).mem.(quarantineExpiresAt := Some(until), state := QUARANTINED))
                          else old(items[i])
      ensures items[i] == ProtectItem(h, active, i, old(items[i]), Quarantine(until))
    {
      hide Run;
      trace := past;
      var it := items[i];
      if it.mem.state == COLD_ARCHIVED {
        ProtectStepIs(h, start, trace, i, Quarantine(until));
        trace := trace + [Protect(i, Quarantine(until))];
        items := items[i := Saved(it, it.mem.(quarantineExpiresAt := Some(until), state := QUARANTINED))];
      }
    }

    method BackupPart(h: Hash, i: ItemId, working: bool, now: int, ghost start: World, ghost past: seq<Event>)
        returns (raised: bool, ghost trace: seq<Event>)
      requires i in items && items[i].work.Idle?
      requires Now() == Run(h, start, past) && Archiving(past, i)
      modifies this`items
      ensures Now() == Run(h, start, trace) && Archiving(trace, i)
      ensures i in items && items[i].work.Idle?
      ensures raised ==> items[i].mem.state == LOCAL_BACKUP_PENDING
      ensures !raised ==> Position(items[i].mem.state) ==
                          (if 6 <= Position(old(items[i].mem.state)) <= 7 then 8 else Position(old(items[i].mem.state)))
      ensures working ==> items[i] == BackupPhase(h, active, i, old(items[i]), now)
    {
      hide Run, BackupRecorded, ProtectItem;
      StateAfter(h, active, i, items[i], BackupPending);
      trace := BackupPendingBlock(h, i, start, past);
      raised, trace := BackupBlock(h, i, working, now, start, trace);
    }

    method UploadPart(h: Hash, i: ItemId, working: bool, now: int, ghost start: World, ghost past: seq<Event>)
        returns (raised: bool, ghost trace: seq<Event>)
      requires i in items && items[i].work.Idle?
      requires Now() == Run(h, start, past) && Archiving(past, i)
      modifies this`items
      ensures Now() == Run(h, start, trace) && Archiving(trace, i)
      ensures i in items && items[i].work.Idle?
      ensures raised ==> items[i].mem.state == COLD_UPLOAD_PENDING || items[i].mem.state == COLD_UPLOADED
      ensures !raised ==> Position(items[i].mem.state) ==
                          (if 8 <= Position(old(items[i].mem.state)) <= 10 then 11 else Position(old(items[i].mem.state)))
      ensures working ==> items[i] == UploadPhase(h, active, i, old(items[i]), now)
    {
      hide Run, UploadRecorded, ProtectItem;
      StateAfter(h, active, i, items[i], ColdPending);
      trace := ColdPendingBlock(h, i, start, past);
      raised, trace := UploadBlock(h, i, working, start, trace);
      if raised {
        ColdVerifySkips(h, active, i, items[i], now);
        return;
      }
      raised, trace := ColdVerifyBlock(h, i, working, now, start, trace);
    }

    method ParkPart(h: Hash, i: ItemId, working: bool, now: int, until: int, ghost start: World, ghost past: seq<Event>)
        returns (raised: bool, ghost trace: seq<Event>)
      requires i in items && items[i].work.Idle?
      requires Now() == Run(h, start, past) && Archiving(past, i)
      modifies this`items
      ensures Now() == Run(h, start, trace) && Archiving(trace, i)
      ensures i in items && items[i].work.Idle?
      ensures raised ==> items[i].mem.state == COLD_ARCHIVE_PENDING
      ensures !raised && 11 <= Position(old(items[i].mem.state)) <= 14 ==> items[i].mem.state == QUARANTINED
      ensures working ==> items[i] == ParkPhase(h, active, i, old(items[i]), now, until)
    {
      hide Run, ProtectItem;
      StateAfter(h, active, i, items[i], ArchivePending);
      trace := ArchivePendingBlock(h, i, start, past);
      raised, trace := ColdArchiveBlock(h, i, working, now, start, trace);
      QuarantineResult(h, active, i, items[i], until);
      if !raised {
        trace := QuarantineBlock(h, i, until, start, trace);
      }
    }

    /** archive() from LOCAL_COMMITTED on. With working adapters its effect on the item is
        `Finish`; whatever fails, it is a run of the machine. */
    method ArchiveCommitted(h: Hash, i: ItemId, working: bool, now: int, until: int, ghost start: World, ghost past: seq<Event>)
        returns (raised: bool, ghost trace: seq<Event>)
      requires i in items && items[i].work.Idle? && 6 <= Position(items[i].mem.state) <= 14
      requires Now() == Run(h, start, past) && Archiving(past, i)
      modifies this`items
      ensures Now() == Run(h, start, trace) && Archiving(trace, i)
      ensures i in items && items[i].work.Idle?
      ensures !raised ==> items[i].mem.state == QUARANTINED
      ensures working ==> items[i] == Finish(h, active, i, old(items[i]), now, until)
    {
      hide Run, BackupPhase, UploadPhase, ParkPhase;
      raised, trace := BackupPart(h, i, working, now, start, past);
      if raised {
        UploadPhaseSkips(h, active, i, items[i], now);
        ParkPhaseSkips(h, active, i, items[i], now, until);
        return;
      }
      raised, trace := UploadPart(h, i, working, now, start, trace);
      if raised {
        ParkPhaseSkips(h, active, i, items[i], now, until);
        return;
      }
      raised, trace := ParkPart(h, i, working, now, until, start, trace);
    }

    // ----- Up to LOCAL_COMMITTED -----

    method BeginBlock(h: Hash, i: ItemId, ghost start: World, ghost past: seq<Event>) returns (ghost trace: seq<Event>)
      requires i in items && items[i].work.Idle?
      requires Now() == Run(h, start, past) && Archiving(past, i)
      modifies this`items
      ensures Now() == Run(h, start, trace) && Archiving(trace, i)
      ensures i in items && items[i].work.Idle?
      ensures var s := old(items[i].mem.state);
              items[i] == if s == ELIGIBLE || s == QUEUED || s.FailedRetryable? || s.ManualReview? || s.SourceChanged?
                          then CommittedAs(old(items[i]), old(items[i]).mem.(state := DOWNLOADING)) else old(items[i])
      ensures CanBegin(old(items[i].mem.state)) ==> items[i].mem.state == DOWNLOADING
      ensures !CanBegin(old(items[i].mem.state)) ==> items[i] == old(items[i])
    {
      hide Run;
      trace := past;
      var it := items[i];
      if CanBegin(it.mem.state) {
        StageStepIs(h, start, trace, i, ArchiveBegin);
        trace := trace + [Stage(i, ArchiveBegin)];
        items := items[i := Saved(it, it.mem.(state := DOWNLOADING))];
      }
    }

    /** Removes a leftover partial file, but only when the source can supply it again. */
    method ClearBlock(h: Hash, i: ItemId, ghost start: World, ghost past: seq<Event>)
        returns (raised: bool, ghost trace: seq<Event>)
      requires i in items && At(items[i], DOWNLOADING)
      requires Now() == Run(h, start, past) && Archiving(past, i)
      modifies this`items
      ensures Now() == Run(h, start, trace) && Archiving(trace, i)
      ensures i in items && At(items[i], DOWNLOADING)
      ensures raised ==> items == old(items)
      ensures !raised ==> items[i].staged.None?
      ensures !raised ==> items[i] == old(items[i]).(staged := None)
      ensures raised <==> old(items[i].staged).Some? && old(items[i].mem.sourceId) !in sources
    {
      hide Run;
      trace := past;
      var it := items[i];
      if it.staged.Some? {
        if it.mem.sourceId !in sources {
          return true, trace;
        }
        StageStepIs(h, start, trace, i, ClearStaged);
        trace := trace + [Stage(i, ClearStaged)];
        items := items[i := it.(staged := None)];
      }
      raised := false;
    }

    /** Every version the source shows is on the model's record. */
    predicate Recorded() reads this {
      forall s :: s in sources ==> (s, sources[s].version) in seen
    }

    /** The user may overwrite or remove the source object; a new version was never seen before. A library
        object is a file of active storage. */
    method SourceMayChange(h: Hash, sid: SourceId, ghost start: World, ghost past: seq<Event>, ghost i: ItemId)
        returns (ghost trace: seq<Event>)
      requires Recorded() && Now() == Run(h, start, past)
      modifies this`active, this`sources, this`seen
      ensures Recorded() && Now() == Run(h, start, trace)
      ensures Archiving(past, i) ==> Archiving(trace, i)
      ensures old(seen) <= seen && sources == (if sid in sources then old(sources)[sid := sources[sid]] else old(sources) - {sid})
      ensures sid in sources && (sid, sources[sid].version) in old(seen) ==> sources == old(sources)
    {
      hide Run;
      trace := past;
      var changes: bool, removed: bool := *, *;
      var next: SourceObject := *;
      if changes && removed {
        SourceRemoveIs(h, start, past, sid);
        trace := past + [Outside(SourceRemove(sid))];
        if sid.Library? {
          active := active - {LibraryPath(sid.name)};
        }
        sources := sources - {sid};
      } else if changes && (sid, next.version) !in seen && (sid.Library? ==> next.path == LibraryPath(sid.name)) {
        SourceWriteIs(h, start, past, sid, next);
        trace := past + [Outside(SourceWrite(sid, next))];
        if sid.Library? {
          active := active[next.path := next.content];
        }
        sources := sources[sid := next];
        seen := seen + {(sid, next.version)};
      }
    }

    /** The user may edit the source, then one chunk is read and written; what is read after an edit is
        arbitrary. */
    method CopyChunk(h: Hash, i: ItemId, before: SourceObject, written: nat, count: nat,
                     ghost start: World, ghost past: seq<Event>) returns (torn: bool, ghost trace: seq<Event>)
      requires Transfer(i, before) && written + count <= |before.content|
      requires items[i].staged.value == before.content[..written]
      requires Now() == Run(h, start, past) && Archiving(past, i)
      modifies this`items, this`active, this`sources, this`seen
      ensures Now() == Run(h, start, trace) && Archiving(trace, i)
      ensures Transfer(i, before) && items[i] == old(items[i]).(staged := items[i].staged)
      ensures torn <==> !Intact(i, before)
      ensures !torn ==> items[i].staged.value == before.content[..written + count]
    {
      hide Run, StageItem;
      var it := items[i];
      trace := SourceMayChange(h, it.mem.sourceId, start, past, i);
      var rest: Bytes := *;
      StageStepIs(h, start, trace, i, DownloadChunk(count, rest));
      DownloadChunkIs(h, Now().env, it, count, rest);
      trace := trace + [Stage(i, DownloadChunk(count, rest))];
      torn := it.mem.sourceId !in sources || sources[it.mem.sourceId].version != before.version;
      if torn {
        items := items[i := it.(staged := Some(it.staged.value + rest))];
      } else {
        PrefixGrows(before.content, written, written + count);
        items := items[i := it.(staged := Some(it.staged.value + before.content[written..written + count]))];
      }
    }

    /** The source still shows the version the download began with. */
    predicate Intact(i: ItemId, before: SourceObject)
      requires i in items
      reads this
    {
      items[i].mem.sourceId in sources && sources[items[i].mem.sourceId].version == before.version
    }

    /** A transfer of `before` is under way; versions are on record, so the source is `before` or shows
        another version for good. */
    predicate Transfer(i: ItemId, before: SourceObject) reads this {
      && Recorded()
      && i in items && items[i].work == Transferring(before.version) && items[i].staged.Some?
      && (items[i].mem.sourceId, before.version) in seen
      && (Intact(i, before) ==> sources[items[i].mem.sourceId] == before)
    }

    /** Copies the source into the partial file chunk by chunk while the user may edit it. If the
        version is still the first one at the end, so are the bytes. */
    method CopyChunks(h: Hash, i: ItemId, working: bool, before: SourceObject, ghost start: World, ghost past: seq<Event>)
        returns (raised: bool, ghost trace: seq<Event>)
      requires Recorded() && i in items && items[i].mem.sourceId in sources
      requires sources[items[i].mem.sourceId] == before
      requires items[i].work == Transferring(before.version) && items[i].staged == Some([])
      requires Now() == Run(h, start, past) && Archiving(past, i)
      modifies this`items, this`active, this`sources, this`seen
      ensures Recorded() && Now() == Run(h, start, trace) && Archiving(trace, i)
      ensures i in items && items[i] == old(items[i]).(staged := items[i].staged) && items[i].staged.Some?
      ensures !raised && Intact(i, before) ==>
        sources[items[i].mem.sourceId] == before && items[i].staged.value == before.content
    {
      hide Run, Archiving;
      WholePrefix(before.content);
      trace := past;
      raised := false;
      var it := items[i];
      var written := 0;
      var torn := false;
      while written < |before.content| && !torn
        invariant 0 <= written <= |before.content|
        invariant Transfer(i, before) && items[i] == it.(staged := items[i].staged)
        invariant if torn then !Intact(i, before) else items[i].staged.value == before.content[..written]
        invariant Now() == Run(h, start, trace) && Archiving(trace, i)
        decreases |before.content| - written, !torn
      {
        var fails: bool := *;
        if !working && fails {
          return true, trace;
        }
        var count := NextChunk(written, |before.content|);
        torn, trace := CopyChunk(h, i, before, written, count, start, trace);
        written := written + count;
      }
      trace := SourceMayChange(h, it.mem.sourceId, start, trace, i);
    }

    /** The download block: staged with the digest of the one version seen at both ends, or
        SOURCE_CHANGED when the source was edited meanwhile, or an exception. */
    method DownloadBlock(h: Hash, i: ItemId, working: bool, ghost start: World, ghost past: seq<Event>)
        returns (raised: bool, ghost trace: seq<Event>)
      requires Recorded() && i in items && items[i].work.Idle?
      requires Now() == Run(h, start, past) && Archiving(past, i)
      modifies this`items, this`active, this`sources, this`seen
      ensures Now() == Run(h, start, trace) && Archiving(trace, i)
      ensures i in items && items[i].work.Idle?
      ensures !raised && items[i].mem.state == LOCAL_STAGED ==>
        items[i].mem == old(items[i].mem).(sha := items[i].mem.sha, state := LOCAL_STAGED)
      ensures !raised && items[i].mem.state == SourceChanged ==> items[i].mem == old(items[i].mem).(state := SourceChanged)
      ensures !raised && old(items[i].mem.state) == DOWNLOADING ==>
        items[i] == CommittedAs(old(items[i]).(staged := items[i].staged), items[i].mem)
      ensures raised ==> items[i] == old(items[i]).(staged := items[i].staged)
      ensures old(items[i].mem.state) != DOWNLOADING ==> !raised && items[i] == old(items[i]) && active == old(active) && sources == old(sources)
      ensures !raised && old(items[i].mem.state) == DOWNLOADING ==>
        items[i].mem.state == LOCAL_STAGED || items[i].mem.state == SourceChanged
      ensures !raised && old(items[i].mem.state) == DOWNLOADING && items[i].mem.state == LOCAL_STAGED ==>
        && items[i].mem.sourceId in old(sources) && items[i].mem.sourceId in sources
        && sources[items[i].mem.sourceId] == old(sources)[items[i].mem.sourceId]
        && items[i].staged == Some(sources[items[i].mem.sourceId].content)
        && items[i].mem.sha == Some(h(items[i].staged.value))
      ensures !raised && old(items[i].mem.state) == DOWNLOADING && items[i].mem.state == SourceChanged ==>
        && items[i].mem.sourceId in old(sources) && items[i].mem.sourceId in sources
        && sources[items[i].mem.sourceId].version != old(sources)[items[i].mem.sourceId].version
    {
      hide Run;
      trace := past;
      raised := false;
      if items[i].mem.state == DOWNLOADING {
        raised, trace := ClearBlock(h, i, start, past);
        if raised || items[i].mem.sourceId !in sources {
          return true, trace;
        }
        raised, trace := Download(h, i, working, start, trace);
      }
    }

    /** The adapter's download: stat, copy, stat again. */
    method Download(h: Hash, i: ItemId, working: bool, ghost start: World, ghost past: seq<Event>)
        returns (raised: bool, ghost trace: seq<Event>)
      requires Recorded() && i in items && At(items[i], DOWNLOADING) && items[i].staged.None?
      requires items[i].mem.sourceId in sources
      requires Now() == Run(h, start, past) && Archiving(past, i)
      modifies this`items, this`active, this`sources, this`seen
      ensures Now() == Run(h, start, trace) && Archiving(trace, i)
      ensures i in items && items[i].work.Idle?
      ensures !raised && items[i].mem.state == LOCAL_STAGED ==>
        items[i].mem == old(items[i].mem).(sha := items[i].mem.sha, state := LOCAL_STAGED)
      ensures !raised && items[i].mem.state == SourceChanged ==> items[i].mem == old(items[i].mem).(state := SourceChanged)
      ensures !raised ==> items[i] == CommittedAs(old(items[i]).(staged := items[i].staged), items[i].mem)
      ensures raised ==> items[i] == old(items[i]).(staged := items[i].staged)
      ensures !raised ==> items[i].mem.sourceId == old(items[i].mem.sourceId) && items[i].mem.sourceId in sources
      ensures !raised ==> items[i].mem.state == LOCAL_STAGED || items[i].mem.state == SourceChanged
      ensures !raised && items[i].mem.state == LOCAL_STAGED ==>
        && sources[items[i].mem.sourceId] == old(sources)[items[i].mem.sourceId]
        && items[i].staged == Some(sources[items[i].mem.sourceId].content)
        && items[i].mem.sha == Some(h(items[i].staged.value))
      ensures !raised && items[i].mem.state == SourceChanged ==>
        sources[items[i].mem.sourceId].version != old(sources)[items[i].mem.sourceId].version
    {
      hide Run, Archiving, StageItem;
      var sid := items[i].mem.sourceId;
      var before := sources[sid];
      DownloadEventsOk(past, i);
      StageStepIs(h, start, past, i, DownloadStart);
      DownloadStartIs(h, Now().env, items[i]);
      trace := past + [Stage(i, DownloadStart)];
      items := items[i := items[i].(staged := Some([]), work := Transferring(before.version))];
      raised, trace := CopyChunks(h, i, working, before, start, trace);
      DownloadEventsOk(trace, i);
      var it := items[i];
      if raised || sid !in sources {
        StageStepIs(h, start, trace, i, Abort);
        AbortIs(h, Now().env, it);
        trace := trace + [Stage(i, Abort)];
        items := items[i := it.(work := Idle)];
        return true, trace;
      }
      StageStepIs(h, start, trace, i, DownloadFinish);
      DownloadFinishIs(h, Now().env, it);
      trace := trace + [Stage(i, DownloadFinish)];
      if sources[sid].version != before.version {
        items := items[i := Saved(it, it.mem.(state := SourceChanged))];
      } else {
        items := items[i := Saved(it, it.mem.(sha := Some(h(it.staged.value)), state := LOCAL_STAGED))];
      }
    }

    method VerifyBlock(h: Hash, i: ItemId, ghost start: World, ghost past: seq<Event>)
        returns (raised: bool, ghost trace: seq<Event>)
      requires i in items && items[i].work.Idle?
      requires Now() == Run(h, start, past) && Archiving(past, i)
      modifies this`items
      ensures Now() == Run(h, start, trace) && Archiving(trace, i)
      ensures i in items && items[i].work.Idle?
      ensures raised <==> old(items[i].mem.state) == LOCAL_STAGED
                          && (items[i].staged.None? || items[i].mem.sha != Some(h(items[i].staged.value)))
      ensures !raised && old(items[i].mem.state) == LOCAL_STAGED ==>
        items[i] == CommittedAs(old(items[i]), old(items[i]).mem.(state := LOCAL_VERIFIED))
      ensures old(items[i].mem.state) != LOCAL_STAGED || raised ==> items[i] == old(items[i])
      ensures raised ==> items[i].mem.state == LOCAL_STAGED
      ensures !raised && old(items[i].mem.state) == LOCAL_STAGED ==> items[i].mem.state == LOCAL_VERIFIED
    {
      hide Run;
      trace := past;
      raised := false;
      var it := items[i];
      if it.mem.state == LOCAL_STAGED {
        if it.staged.None? || it.mem.sha != Some(h(it.staged.value)) {
          return true, trace;
        }
        StageStepIs(h, start, trace, i, VerifyStaged);
        trace := trace + [Stage(i, VerifyStaged)];
        items := items[i := Saved(it, it.mem.(state := LOCAL_VERIFIED))];
      }
    }

    /** commit_staged, or adoption of the active file; raises without touching anything. A file at the
        collision name is replaced, as os.replace does. */
    method CommitStaged(h: Hash, i: ItemId, ghost start: World, ghost past: seq<Event>)
        returns (raised: bool, path: Path, ghost trace: seq<Event>)
      requires i in items && At(items[i], LOCAL_VERIFIED)
      requires Now() == Run(h, start, past) && Archiving(past, i)
      modifies this`items, this`active
      ensures Now() == Run(h, start, trace) && Archiving(trace, i)
      ensures i in items
      ensures raised ==> items == old(items) && active == old(active)
      ensures !raised ==> items[i] == old(items[i]).(staged := None, work := Moved(path))
      ensures !raised ==> items[i].mem.sha.Some? && Held(h, active, path, items[i].mem.sha.value)
      ensures old(items[i].mem.sourceId.Library?) ==> active == old(active)
      ensures old(items[i].mem.sourceId.Library?) ==>
        var r := old(items[i].mem);
        && (!raised <==> && old(items[i].staged).Some? && r.originalPath in active
                         && |active[r.originalPath]| == r.originalSize && r.sha == Some(h(active[r.originalPath])))
        && (!raised ==> path == r.originalPath)
      ensures old(items[i].mem.sourceId.Separate?) ==>
        var r, staged := old(items[i].mem), old(items[i].staged);
        !raised <==> staged.Some? && |staged.value| == r.originalSize && r.sha == Some(h(staged.value))
      ensures !raised && old(items[i].mem.sourceId.Separate?) ==>
        && old(items[i].staged.Some?)
        && var r, staged := old(items[i].mem), old(items[i].staged).value;
        && path == CommitTarget(h, old(active), r.originalPath, h(staged), |staged|)
        && active == CommittedActive(h, old(active), r.originalPath, h(staged), staged)
        && (r.originalPath !in old(active) ==> path == r.originalPath && active == old(active)[path := staged])
        && (r.originalPath in old(active) ==>
              if |old(active)[r.originalPath]| == |staged| && h(old(active)[r.originalPath]) == h(staged)
              then path == r.originalPath && active == old(active)
              else path == Names.CollisionName(r.originalPath, h(staged)) && active == old(active)[path := staged])
    {
      hide Run;
      trace := past;
      var it := items[i];
      var r := it.mem;
      if CanAdopt(h, Env(active, sources, {}), it) {
        path := r.originalPath;
      } else if CanCommitFile(h, it) {
        path := CommitTarget(h, active, r.originalPath, r.sha.value, |it.staged.value|);
      } else {
        return true, "", trace;
      }
      CommitFileIs(h, start, trace, i);
      trace := trace + [CommitFile(i)];
      if r.sourceId.Separate? && !(path == r.originalPath && path in active) {
        active := active[path := it.staged.value];
      }
      items := items[i := it.(staged := None, work := Moved(path))];
      raised := false;
    }

    method CommitBlock(h: Hash, i: ItemId, ghost start: World, ghost past: seq<Event>)
        returns (raised: bool, ghost trace: seq<Event>)
      requires i in items && items[i].work.Idle?
      requires Now() == Run(h, start, past) && Archiving(past, i)
      modifies this`items, this`active
      ensures Now() == Run(h, start, trace) && Archiving(trace, i)
      ensures i in items && items[i].work.Idle?
      ensures !raised && old(items[i].mem.state) == LOCAL_VERIFIED ==>
        var r, it := old(items[i].mem), items[i];
        && it == CommittedAs(old(items[i]).(staged := None), r.(nasPath := it.mem.nasPath, state := LOCAL_COMMITTED))
        && it.mem.nasPath.Some? && r.sha.Some? && Held(h, active, it.mem.nasPath.value, r.sha.value)
        && (r.sourceId.Library? || r.originalPath !in old(active) ==> it.mem.nasPath.value == r.originalPath)
        && (it.mem.nasPath.value == r.originalPath || it.mem.nasPath.value == Names.CollisionName(r.originalPath, r.sha.value))
      ensures old(items[i].mem.state) != LOCAL_VERIFIED || raised ==> items[i] == old(items[i])
      ensures raised ==> items[i].mem.state == LOCAL_VERIFIED
      ensures !raised && old(items[i].mem.state) == LOCAL_VERIFIED ==> items[i].mem.state == LOCAL_COMMITTED
    {
      hide Run, CanAdopt, CanCommitFile, CollisionFree;
      trace := past;
      raised := false;
      if items[i].mem.state == LOCAL_VERIFIED {
        var path: Path;
        raised, path, trace := CommitStaged(h, i, start, trace);
        if raised {
          return;
        }
        var it := items[i];
        StageStepIs(h, start, trace, i, CommitRow);
        trace := trace + [Stage(i, CommitRow)];
        items := items[i := Saved(it, it.mem.(nasPath := Some(path), state := LOCAL_COMMITTED))];
      }
    }

    method StagePart(h: Hash, i: ItemId, working: bool, ghost start: World, ghost past: seq<Event>)
        returns (raised: bool, ghost trace: seq<Event>)
      requires Recorded() && i in items && items[i].work.Idle?
      requires Now() == Run(h, start, past) && Archiving(past, i)
      modifies this`items, this`active, this`sources, this`seen
      ensures Now() == Run(h, start, trace) && Archiving(trace, i)
      ensures i in items && items[i].work.Idle?
      ensures !raised && Workable(old(items[i].mem.state)) ==>
        6 <= Position(items[i].mem.state) <= 14
        || (items[i].mem.state == SourceChanged && Position(old(items[i].mem.state)) <= 3)
      ensures !Workable(old(items[i].mem.state)) || 6 <= Position(old(items[i].mem.state)) ==>
        !raised && items[i] == old(items[i]) && active == old(active) && sources == old(sources)
    {
      hide Run, CanAdopt, CanCommitFile, CollisionFree, CommittedAs, Held, Archiving;
      trace := BeginBlock(h, i, start, past);
      raised, trace := DownloadBlock(h, i, working, start, trace);
      if raised {
        return;
      }
      raised, trace := VerifyBlock(h, i, start, trace);
      if raised || items[i].mem.state != LOCAL_VERIFIED {
        return;
      }
      raised, trace := CommitBlock(h, i, start, trace);
    }

    /** archive(): carries the item as far as nothing fails, from wherever it stands, while the user
        may edit the source. A return without an exception leaves a workable item in QUARANTINED, or
        in SOURCE_CHANGED when it was edited during the download; with working adapters a committed
        item ends as `Finish` says, and then the source is not even looked at. */
    method Archive(h: Hash, i: ItemId, working: bool, now: int, until: int)
        returns (raised: bool, ghost trace: seq<Event>)
      requires Recorded() && i in items && items[i].work.Idle?
      modifies this`items, this`active, this`sources, this`seen
      ensures Now() == Run(h, old(Now()), trace) && Archiving(trace, i)
      ensures i in items && items[i].work.Idle?
      ensures !raised && Workable(old(items[i].mem.state)) ==>
        items[i].mem.state == QUARANTINED
        || (items[i].mem.state == SourceChanged && Position(old(items[i].mem.state)) <= 3)
      ensures !Workable(old(items[i].mem.state)) ==> items[i] == old(items[i])
      ensures working && 6 <= Position(old(items[i].mem.state)) <= 14 ==>
        active == old(active) && sources == old(sources) && items[i] == Finish(h, old(active), i, old(items[i]), now, until)
    {
      ghost var start := Now();
      trace := [];
      assert Now() == Run(h, start, []);
      hide Run, Finish;
      raised, trace := StagePart(h, i, working, start, trace);
      if !raised && 6 <= Position(items[i].mem.state) <= 14 {
        raised, trace := ArchiveCommitted(h, i, working, now, until, start, trace);
      }
    }

    // ----- Discovery -----

    /** discover() for one source object: a new row, or a known one refreshed. */
    method DiscoverObject(h: Hash, sid: SourceId, unused: ItemId, eligible: bool,
                          ghost start: World, ghost past: seq<Event>) returns (i: ItemId, ghost trace: seq<Event>)
      requires sid in sources && unused !in items
      requires forall j :: j in items && items[j].mem.sourceId == sid ==> items[j].work.Idle?
      requires Now() == Run(h, start, past)
      modifies this`items
      ensures Now() == Run(h, start, trace)
      ensures i in items && items[i].mem.sourceId == sid && SourceMatches(items[i].mem, sources[sid])
      ensures i !in old(items) ==>
        && items[i].mem.state == (if eligible then ELIGIBLE else Ineligible)
        && items[i].mem.sha.None? && items[i].mem.nasPath.None? && items[i].mem.snapshotId.None? && items[i].mem.remote.None?
        && items[i].mem.kopiaVerifiedAt.None? && items[i].mem.remoteVerifiedAt.None?
        && items[i].mem.coldArchivedAt.None? && items[i].mem.quarantineExpiresAt.None? && items[i].mem.deletedAt.None?
        && items[i].db.None? && items[i].staged.None? && items[i].snapshot.None? && items[i].coldCopy.None?
        && !items[i].snapshotPartial && !items[i].coldPartial && items[i].work.Idle? && !items[i].decision
      ensures i in old(items) ==>
        var r, obj := old(items)[i].mem, sources[sid];
        && items[i] == old(items)[i].(mem := items[i].mem)
        && items[i].mem ==
          if obj.path != r.originalPath || |obj.content| != r.originalSize || obj.modified != r.originalModified
             || obj.version != r.sourceVersion
          then r.(state := SourceChanged, originalPath := obj.path, originalSize := |obj.content|,
                  originalModified := obj.modified, sourceVersion := obj.version)
          else if r.state.Ineligible? && eligible then r.(state := ELIGIBLE) else r
      ensures forall j :: j in old(items) && j != i ==> j in items && items[j] == old(items)[j]
    {
      hide Run;
      if j :| j in items && items[j].mem.sourceId == sid {
        i := j;
        StageStepIs(h, start, past, i, DiscoverKnown(eligible));
        trace := past + [Stage(i, DiscoverKnown(eligible))];
        items := items[i := items[i].(mem := Rediscovered(items[i].mem, sources[sid], eligible))];
      } else {
        i := unused;
        RunAppend(h, start, past, Outside(DiscoverNew(i, sid, eligible)));
        trace := past + [Outside(DiscoverNew(i, sid, eligible))];
        items := items[i := Item(NewRow(sid, sources[sid], eligible), None,
                                 None, None, false, None, false, Idle, false)];
      }
    }

    // ----- Decide, then delete -----

    /** deletion_decision: gathers the facts and asks the gate. */
    method DeletionDecision(h: Hash, i: ItemId, ctx: GateContext, ghost start: World, ghost past: seq<Event>)
        returns (d: GateDecision, ghost trace: seq<Event>)
      requires i in items && items[i].work.Idle?
      requires Now() == Run(h, start, past)
      modifies this`items
      ensures Now() == Run(h, start, trace) && trace == past + [Decide(i, ctx)]
      ensures d.allowed <==> GateSaysYes(h, Env(active, sources, {}), old(items[i].mem), ctx)
      ensures d.allowed <==>
        var r := old(items[i].mem);
        && ctx.activeDiskHealthy && ctx.backupDiskHealthy && ctx.storageDevicesDiffer
        && ctx.sqliteIntegrityHealthy && ctx.remoteAvailable
        && ctx.globalDeletionEnabled && ctx.sourceDeletionEnabled && !ctx.safetyLock
        && (ctx.manualApprovalRequired ==> ctx.manualApprovalGranted)
        && r.kopiaVerifiedAt.Some? && r.remoteVerifiedAt.Some?
        && r.quarantineExpiresAt.Some? && r.quarantineExpiresAt.value <= ctx.now
        && r.nasPath.Some? && r.nasPath.value in active
        && |active[r.nasPath.value]| == r.originalSize && r.sha == Some(h(active[r.nasPath.value]))
        && r.sourceId in sources
        && sources[r.sourceId].path == r.originalPath && |sources[r.sourceId].content| == r.originalSize
        && sources[r.sourceId].modified == r.originalModified && sources[r.sourceId].version == r.sourceVersion
        && ctx.usage.filesDeleted < ctx.limits.maxFiles
        && ctx.usage.bytesDeleted + r.originalSize <= ctx.limits.maxBytes
        && ctx.usage.eligibleFiles > 0
        && (ctx.usage.filesDeleted + 1) as real * 100.0 <= ctx.limits.maxPercentage * ctx.usage.eligibleFiles as real
      ensures i in items && items[i] == old(items[i]).(decision := d.allowed)
    {
      hide Run, GateSaysYes, Facts, GateOpen;
      ClearedIff(h, active, sources, items[i].mem, ctx);
      var it := items[i];
      GateSaysYesIs(h, Env(active, sources, {}), it.mem, ctx);
      d := EvaluateDeletionGate(Facts(h, Env(active, sources, {}), it.mem, ctx), ctx.usage, ctx.limits,
                                it.mem.originalSize, ctx.now);
      RunAppend(h, start, past, Decide(i, ctx));
      trace := past + [Decide(i, ctx)];
      FactsIgnoreSeen(h, active, sources, seen, it.mem, ctx);
      items := items[i := it.(decision := d.allowed)];
    }

    /** The guard's part: re-read the source, then take the row to a committed DELETING. */
    method BeginDeletion(h: Hash, i: ItemId, canDelete: bool, ghost start: World, ghost past: seq<Event>)
        returns (ready: bool, ghost trace: seq<Event>)
      requires i in items && items[i].work.Idle?
      requires Now() == Run(h, start, past)
      modifies this`items
      ensures Now() == Run(h, start, trace)
      ensures ready <==>
        var it, r := old(items[i]), old(items[i].mem);
        && canDelete && it.decision && r.sourceId.Separate? && r.sourceId in sources
        && sources[r.sourceId].path == r.originalPath && |sources[r.sourceId].content| == r.originalSize
        && sources[r.sourceId].modified == r.originalModified && sources[r.sourceId].version == r.sourceVersion
        && 14 <= Position(r.state) <= 17
      ensures ready ==>
        && i in items
        && items[i] == CommittedAs(old(items[i]), old(items[i]).mem.(state := DELETING)).(work := DeleteReady)
      ensures !ready ==>
        || items == old(items)
        || (i in items && items[i] == old(items[i]).(mem := old(items[i]).mem.(state := SourceChanged), decision := false))
        || (i in items && old(items[i].db) == Some(items[i].mem) && items[i].work.Idle? && !items[i].decision)
        || (i !in items && old(items[i].db).None?)
      ensures ready ==> i in items && items[i].work.DeleteReady?
      ensures ready ==> old(items[i].decision) && canDelete && items[i].mem.sourceId == old(items[i].mem.sourceId)
      ensures ready ==> items[i].mem.sourceId in sources && SourceMatches(items[i].mem, sources[items[i].mem.sourceId])
      ensures ready ==> items[i].mem.state == DELETING && items[i].db == Some(items[i].mem)
    {
      hide Run;
      var it := items[i];
      var r := it.mem;
      trace := past;
      if !canDelete || r.sourceId.Library? || !it.decision || r.sourceId !in sources {
        return false, trace;
      }
      DeleteBeginIs(h, start, trace, i, canDelete);
      trace := trace + [DeleteBegin(i, canDelete)];
      if !SourceMatches(r, sources[r.sourceId]) {
        items := items[i := it.(mem := r.(state := SourceChanged), decision := false)];
        return false, trace;
      }
      if !CanReachDeleting(r.state) {
        items := if it.db.Some? then items[i := Reloaded(it)] else items - {i};
        return false, trace;
      }
      items := items[i := Saved(it, r.(state := DELETING)).(work := DeleteReady)];
      ready := true;
    }

    /** The version check of the source adapter's delete. */
    method CheckVersion(h: Hash, i: ItemId, ghost start: World, ghost past: seq<Event>)
        returns (same: bool, ghost trace: seq<Event>)
      requires i in items && items[i].work.DeleteReady?
      requires Now() == Run(h, start, past)
      modifies this`items
      ensures Now() == Run(h, start, trace) && i in items
      ensures same ==> items[i] == old(items[i]).(work := DeleteChecked)
      ensures same ==> items[i].mem.sourceId in sources && sources[items[i].mem.sourceId].version == items[i].mem.sourceVersion
      ensures !same ==> items[i].mem.state == ManualReview || items[i].mem.state == SourceChanged
      ensures !same ==> items[i].work.Idle?
      ensures !same ==> items[i] == old(items[i]).(mem := old(items[i]).mem.(state := items[i].mem.state), work := Idle)
      ensures !same && items[i].mem.state == SourceChanged ==>
        items[i].mem.sourceId in sources && sources[items[i].mem.sourceId].version != items[i].mem.sourceVersion
    {
      hide Run;
      var it := items[i];
      var r := it.mem;
      var fails: bool := *;
      if fails {
        SettleStepIs(h, start, past, i, DeleteAmbiguous);
        trace := past + [Settle(i, DeleteAmbiguous)];
        items := items[i := it.(mem := r.(state := ManualReview), work := Idle)];
        return false, trace;
      }
      DeleteCheckIs(h, start, past, i);
      trace := past + [DeleteCheck(i)];
      if r.sourceId !in sources {
        items := items[i := it.(mem := r.(state := ManualReview), work := Idle)];
        return false, trace;
      }
      if sources[r.sourceId].version != r.sourceVersion {
        items := items[i := it.(mem := r.(state := SourceChanged), work := Idle)];
        return false, trace;
      }
      items := items[i := it.(work := DeleteChecked)];
      same := true;
    }

    /** The source adapter's delete, as far as it gets: look at the version, then unlink what is there by
        then. `confirmed` when the object is gone. */
    method CallDelete(h: Hash, i: ItemId, ghost start: World, ghost past: seq<Event>)
        returns (confirmed: bool, ghost trace: seq<Event>)
      requires Recorded() && i in items && items[i].work.DeleteReady?
      requires Now() == Run(h, start, past)
      modifies this`items, this`active, this`sources, this`seen, this`log
      ensures Now() == Run(h, start, trace)
      ensures i in items && SameOthers(old(sources), sources, old(items[i].mem.sourceId))
      ensures confirmed ==> items[i].work.DeleteDone? && items[i].mem == old(items[i].mem)
      ensures confirmed ==> old(items[i].mem.sourceId) !in sources
      ensures confirmed ==> old(log) < log && |log| == |old(log)| + 1 && log[|old(log)|].item == i
      ensures confirmed ==> old(items[i].mem.sourceId) in old(sources)
                            && old(sources)[old(items[i].mem.sourceId)].version == items[i].mem.sourceVersion
      ensures !confirmed ==> log == old(log) && items[i].work.Idle?
      ensures !confirmed ==> items[i].mem.state == ManualReview || items[i].mem.state == SourceChanged
    {
      hide Run;
      confirmed, trace := CheckVersion(h, i, start, past);
      if confirmed {
        trace := SourceMayChange(h, items[i].mem.sourceId, start, trace, i);
        confirmed, trace := Unlink(h, i, start, trace);
      }
    }

    method Unlink(h: Hash, i: ItemId, ghost start: World, ghost past: seq<Event>)
        returns (confirmed: bool, ghost trace: seq<Event>)
      requires i in items && items[i].work.DeleteChecked?
      requires Now() == Run(h, start, past)
      modifies this`items, this`sources, this`log
      ensures Now() == Run(h, start, trace)
      ensures i in items && confirmed == (old(items[i].mem.sourceId) in old(sources))
      ensures confirmed ==>
        && items[i] == old(items[i]).(work := DeleteDone)
        && sources == old(sources) - {items[i].mem.sourceId}
        && log == old(log) + [DeletionOf(old(Now()), i, items[i].mem)]
        && var last, r := log[|old(log)|], items[i].mem;
        && last.item == i && last.content == old(sources)[r.sourceId].content
        && (r.nasPath.Some? ==> last.path == r.nasPath.value) && (r.sha.Some? ==> last.digest == r.sha.value)
      ensures !confirmed ==> sources == old(sources) && log == old(log)
      ensures !confirmed ==> items[i].mem.state == ManualReview && items[i].work.Idle?
    {
      hide Run;
      var it := items[i];
      var r := it.mem;
      DeleteCallIs(h, start, past, i);
      trace := past + [DeleteCall(i)];
      if r.sourceId !in sources {
        items := items[i := it.(mem := r.(state := ManualReview), work := Idle)];
        return false, trace;
      }
      log := log + [DeletionOf(Now(), i, r)];
      sources := sources - {r.sourceId};
      items := items[i := it.(work := DeleteDone)];
      confirmed := true;
    }

    /** delete_test_item, while the user may edit the source. Without a decision or the capability nothing is
        touched; the row ends ARCHIVED only when the object is gone, and no other source object is. */
    method DeleteTestItem(h: Hash, i: ItemId, canDelete: bool, now: int, ghost start: World, ghost past: seq<Event>)
        returns (ghost trace: seq<Event>)
      requires Recorded() && i in items && items[i].work.Idle?
      requires Now() == Run(h, start, past)
      modifies this`items, this`active, this`sources, this`seen, this`log
      ensures Now() == Run(h, start, trace)
      ensures !old(items[i].decision) || !canDelete ==> sources == old(sources) && log == old(log)
      ensures SameOthers(old(sources), sources, old(items[i].mem.sourceId))
      ensures log == old(log) || (old(log) < log && |log| == |old(log)| + 1 && log[|old(log)|].item == i)
      ensures log != old(log) ==>
        && old(items[i].mem.sourceId) in old(sources) && old(items[i].mem.sourceId) !in sources
        && i in items && (items[i].mem.state == ManualReview
                          || (items[i].mem.state == ARCHIVED && items[i].mem.deletedAt == Some(now)))
      ensures log == old(log) && i in items ==>
        || items[i] == old(items[i]) || old(items[i].db) == Some(items[i].mem)
        || items[i].mem.state == ManualReview || items[i].mem.state == SourceChanged
    {
      hide Run, GateSaysYes;
      var ready;
      ready, trace := BeginDeletion(h, i, canDelete, start, past);
      if !ready {
        return;
      }
      trace := SourceMayChange(h, items[i].mem.sourceId, start, trace, i);
      var confirmed;
      confirmed, trace := CallDelete(h, i, start, trace);
      if !confirmed {
        return;
      }
      var it := items[i];
      var ambiguous: bool := *;
      if ambiguous {
        SettleStepIs(h, start, trace, i, DeleteAmbiguous);
        trace := trace + [Settle(i, DeleteAmbiguous)];
        items := items[i := it.(mem := it.mem.(state := ManualReview), work := Idle)];
      } else {
        SettleStepIs(h, start, trace, i, DeleteRecord(now));
        trace := trace + [Settle(i, DeleteRecord(now))];
        items := items[i := it.(mem := it.mem.(deletedAt := Some(now), state := ARCHIVED), work := Idle)];
      }
    }
  }

  /** Every source object but one is as it was. */
  predicate SameOthers(sources: map<SourceId, SourceObject>, sources': map<SourceId, SourceObject>, sid: SourceId) {
    sources - {sid} == sources' - {sid}
  }

  lemma SourceWriteIs(h: Hash, w: World, trace: seq<Event>, sid: SourceId, obj: SourceObject)
    ensures var now := Run(h, w, trace);
            Run(h, w, trace + [Outside(SourceWrite(sid, obj))]) == now.(env := SourceWritten(now.env, sid, obj))
  {
    RunAppend(h, w, trace, Outside(SourceWrite(sid, obj)));
  }

  lemma SourceRemoveIs(h: Hash, w: World, trace: seq<Event>, sid: SourceId)
    ensures var now := Run(h, w, trace);
            Run(h, w, trace + [Outside(SourceRemove(sid))]) == now.(env := SourceRemoved(now.env, sid))
  {
    RunAppend(h, w, trace, Outside(SourceRemove(sid)));
  }

  lemma PrefixGrows(content: Bytes, from: nat, to: nat)
    requires from <= to <= |content|
    ensures content[..from] + content[from..to] == content[..to]
  {
  }

  lemma WholePrefix(content: Bytes)
    ensures content[..|content|] == content && content[..0] == []
  {
  }

  lemma DownloadEventsOk(trace: seq<Event>, i: ItemId)
    requires Archiving(trace, i)
    ensures Archiving(trace + [Stage(i, DownloadStart)], i)
    ensures Archiving(trace + [Stage(i, DownloadFinish)], i)
    ensures Archiving(trace + [Stage(i, Abort)], i)
  {
  }

  lemma DownloadStartIs(h: Hash, env: Env, it: Item)
    requires At(it, DOWNLOADING) && it.staged.None? && it.mem.sourceId in env.sources
    ensures StageItem(h, env, it, DownloadStart)
         == it.(staged := Some([]), work := Transferring(env.sources[it.mem.sourceId].version))
  {
  }

  lemma AbortIs(h: Hash, env: Env, it: Item)
    ensures StageItem(h, env, it, Abort) == it.(work := Idle)
  {
  }

  lemma DownloadChunkIs(h: Hash, env: Env, it: Item, count: nat, rest: Bytes)
    requires it.work.Transferring? && it.staged.Some?
    ensures var sid, from := it.mem.sourceId, |it.staged.value|;
            && (sid !in env.sources || env.sources[sid].version != it.work.before ==>
                  StageItem(h, env, it, DownloadChunk(count, rest)) == it.(staged := Some(it.staged.value + rest)))
            && (sid in env.sources && env.sources[sid].version == it.work.before
                && from + count <= |env.sources[sid].content| ==>
                  StageItem(h, env, it, DownloadChunk(count, rest))
                  == it.(staged := Some(it.staged.value + env.sources[sid].content[from..from + count])))
  {
  }

  lemma DownloadFinishIs(h: Hash, env: Env, it: Item)
    requires it.work.Transferring? && it.staged.Some? && it.mem.sourceId in env.sources
    ensures env.sources[it.mem.sourceId].version != it.work.before ==>
      StageItem(h, env, it, DownloadFinish) == Saved(it, it.mem.(state := SourceChanged))
    ensures env.sources[it.mem.sourceId].version == it.work.before && it.staged.value == env.sources[it.mem.sourceId].content ==>
      StageItem(h, env, it, DownloadFinish) == Saved(it, it.mem.(sha := Some(h(it.staged.value)), state := LOCAL_STAGED))
  {
  }

  /** Up to a mebibyte of what is left. */
  function NextChunk(written: nat, size: nat): (count: nat)
    requires written < size
    ensures 0 < count <= CHUNK && written + count <= size
  {
    if written + CHUNK <= size then CHUNK else size - written
  }
}
