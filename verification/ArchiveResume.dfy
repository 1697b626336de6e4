/** Resuming an interrupted archive run from LOCAL_COMMITTED on. */
module ArchiveResume {
  import opened Basics
  import opened States
  import opened Archive
  import opened ArchiveSafety
  import opened ArchiveStranded

  /** The active file can be read and has the recorded hash. */
  predicate Readable(h: Hash, active: map<Path, Bytes>, it: Item) {
    it.mem.nasPath.Some? && it.mem.sha.Some? && Held(h, active, it.mem.nasPath.value, it.mem.sha.value)
  }

  /** The store entry under the item's key holds the right bytes, or can still be written from an active
      file that has them. A temporary file left by an interrupted copy makes the adapter's exclusive create
      fail. */
  predicate SnapshotUsable(h: Hash, active: map<Path, Bytes>, it: Item) {
    if it.snapshot.Some? then it.mem.sha == Some(h(it.snapshot.value))
    else (!it.snapshotPartial || it.work.CopyingSnapshot?) && Readable(h, active, it)
  }

  predicate ColdCopyUsable(h: Hash, active: map<Path, Bytes>, it: Item) {
    if it.coldCopy.Some? then it.mem.sha == Some(h(it.coldCopy.value))
    else (!it.coldPartial || it.work.CopyingObject?) && Readable(h, active, it)
  }

  /** The committed stretch of the path, from LOCAL_COMMITTED to QUARANTINED. */
  predicate Committed(it: Item) {
    && 6 <= Position(it.mem.state) <= 14
    && (it.work.Idle? || it.work.CopyingSnapshot? || it.work.CopyingObject?)
  }

  predicate Resumable(h: Hash, active: map<Path, Bytes>, it: Item) {
    && Committed(it)
    && (Position(it.mem.state) <= 7 ==> SnapshotUsable(h, active, it))
    && (Position(it.mem.state) <= 10 ==> ColdCopyUsable(h, active, it))
  }

  /** A run of archive() in which no adapter fails, from LOCAL_COMMITTED on: each block that
      does not apply to the current state is skipped. */
  function BackupRecorded(h: Hash, active: map<Path, Bytes>, i: ItemId, it: Item, at: int): Item {
    var b := ProtectItem(h, active, i, it, SnapshotBegin);
    var c := ProtectItem(h, active, i, b, SnapshotPublish);
    ProtectItem(h, active, i, c, BackupConfirm(at))
  }

  function BackupPhase(h: Hash, active: map<Path, Bytes>, i: ItemId, it: Item, at: int): Item {
    BackupRecorded(h, active, i, ProtectItem(h, active, i, it, BackupPending), at)
  }

  function UploadRecorded(h: Hash, active: map<Path, Bytes>, i: ItemId, it: Item): Item {
    var b := ProtectItem(h, active, i, it, UploadBegin);
    var c := ProtectItem(h, active, i, b, UploadPublish);
    ProtectItem(h, active, i, c, ColdRecord)
  }

  function UploadPhase(h: Hash, active: map<Path, Bytes>, i: ItemId, it: Item, at: int): Item {
    var a := ProtectItem(h, active, i, it, ColdPending);
    ProtectItem(h, active, i, UploadRecorded(h, active, i, a), ColdVerify(at))
  }

  function ParkPhase(h: Hash, active: map<Path, Bytes>, i: ItemId, it: Item, at: int, until: int): Item {
    var a := ProtectItem(h, active, i, it, ArchivePending);
    var b := ProtectItem(h, active, i, a, ColdArchive(at));
    ProtectItem(h, active, i, b, Quarantine(until))
  }

  function Finish(h: Hash, active: map<Path, Bytes>, i: ItemId, it: Item, at: int, until: int): Item {
    ParkPhase(h, active, i, UploadPhase(h, active, i, BackupPhase(h, active, i, it, at), at), at, until)
  }

  /** What finishing never touches. */
  predicate SameIdentity(it: Item, it': Item) {
    && it'.staged == it.staged
    && it'.mem.sha == it.mem.sha
    && it'.mem.nasPath == it.mem.nasPath
    && it'.mem.sourceId == it.mem.sourceId
    && it'.mem.sourceVersion == it.mem.sourceVersion
  }

  lemma ProtectKeepsIdentity(h: Hash, active: map<Path, Bytes>, i: ItemId, it: Item, step: ProtectStep)
    ensures SameIdentity(it, ProtectItem(h, active, i, it, step))
  {
  }

  lemma BackupPhaseSafe(h: Hash, env: Env, i: ItemId, it: Item, at: int)
    requires ItemOk(h, env, i, it)
    ensures var it' := BackupPhase(h, env.active, i, it, at);
            ItemOk(h, env, i, it') && SameIdentity(it, it') && Keeps(it, it')
  {
    var a := Safely(h, env, i, it, BackupPending);
    var b := Safely(h, env, i, a, SnapshotBegin);
    var c := Safely(h, env, i, b, SnapshotPublish);
    var _ := Safely(h, env, i, c, BackupConfirm(at));
  }

  lemma Safely(h: Hash, env: Env, i: ItemId, it: Item, step: ProtectStep) returns (it': Item)
    requires ItemOk(h, env, i, it)
    ensures it' == ProtectItem(h, env.active, i, it, step)
    ensures ItemOk(h, env, i, it') && SameIdentity(it, it') && Keeps(it, it')
  {
    it' := ProtectItem(h, env.active, i, it, step);
    ProtectSafe(h, env, i, it, step);
    ProtectKeepsIdentity(h, env.active, i, it, step);
  }

  lemma UploadPhaseSafe(h: Hash, env: Env, i: ItemId, it: Item, at: int)
    requires ItemOk(h, env, i, it)
    ensures var it' := UploadPhase(h, env.active, i, it, at);
            ItemOk(h, env, i, it') && SameIdentity(it, it') && Keeps(it, it')
  {
    var a := Safely(h, env, i, it, ColdPending);
    var b := Safely(h, env, i, a, UploadBegin);
    var c := Safely(h, env, i, b, UploadPublish);
    var d := Safely(h, env, i, c, ColdRecord);
    var _ := Safely(h, env, i, d, ColdVerify(at));
  }

  lemma ParkPhaseSafe(h: Hash, env: Env, i: ItemId, it: Item, at: int, until: int)
    requires ItemOk(h, env, i, it)
    ensures var it' := ParkPhase(h, env.active, i, it, at, until);
            ItemOk(h, env, i, it') && SameIdentity(it, it') && Keeps(it, it')
  {
    var a := Safely(h, env, i, it, ArchivePending);
    var b := Safely(h, env, i, a, ColdArchive(at));
    var _ := Safely(h, env, i, b, Quarantine(until));
  }

  lemma BackupProgress(h: Hash, active: map<Path, Bytes>, i: ItemId, it: Item, at: int)
    requires it.mem.nasPath.Some? && it.mem.sha.Some?
    requires it.mem.state == LOCAL_COMMITTED || it.mem.state == LOCAL_BACKUP_PENDING
    requires it.work.Idle? || (it.work.CopyingSnapshot? && it.mem.state == LOCAL_BACKUP_PENDING && it.snapshot.None?)
    ensures var it' := BackupPhase(h, active, i, it, at);
            && it'.mem.state == (if SnapshotUsable(h, active, it) then LOCAL_BACKUP_VERIFIED else LOCAL_BACKUP_PENDING)
            && (SnapshotUsable(h, active, it) ==> it'.work.Idle?)
            && it'.coldCopy == it.coldCopy && it'.coldPartial == it.coldPartial
  {
    var a := ProtectItem(h, active, i, it, BackupPending);
    assert a.mem.state == LOCAL_BACKUP_PENDING && a.work == it.work;
    var b := ProtectItem(h, active, i, a, SnapshotBegin);
    var c := ProtectItem(h, active, i, b, SnapshotPublish);
    if it.snapshot.None? && (!it.snapshotPartial || it.work.CopyingSnapshot?) && it.mem.nasPath.value in active {
      assert b.work.CopyingSnapshot? && c.snapshot == Some(active[it.mem.nasPath.value]) && c.work.Idle?;
    } else {
      assert c == b == a;
    }
  }

  lemma UploadProgress(h: Hash, active: map<Path, Bytes>, i: ItemId, it: Item, at: int)
    requires it.mem.nasPath.Some? && it.mem.sha.Some?
    requires it.mem.state == LOCAL_BACKUP_VERIFIED || it.mem.state == COLD_UPLOAD_PENDING
    requires it.work.Idle? || (it.work.CopyingObject? && it.mem.state == COLD_UPLOAD_PENDING && it.coldCopy.None?)
    ensures var it' := UploadPhase(h, active, i, it, at);
            if ColdCopyUsable(h, active, it) then it'.mem.state == COLD_VERIFIED && it'.work.Idle?
            else it'.mem.state == COLD_UPLOAD_PENDING || it'.mem.state == COLD_UPLOADED
  {
    var a := ProtectItem(h, active, i, it, ColdPending);
    assert a.mem.state == COLD_UPLOAD_PENDING && a.work == it.work;
    var b := ProtectItem(h, active, i, a, UploadBegin);
    var c := ProtectItem(h, active, i, b, UploadPublish);
    if it.coldCopy.None? && (!it.coldPartial || it.work.CopyingObject?) && it.mem.nasPath.value in active {
      assert b.work.CopyingObject? && c.coldCopy == Some(active[it.mem.nasPath.value]) && c.work.Idle?;
    } else {
      assert c == b == a;
    }
    var d := ProtectItem(h, active, i, c, ColdRecord);
    assert c.coldCopy.Some? && c.work.Idle? ==> d.mem.state == COLD_UPLOADED && d.mem.remote == Some(i);
  }

  lemma UploadedProgress(h: Hash, active: map<Path, Bytes>, i: ItemId, it: Item, at: int)
    requires At(it, COLD_UPLOADED) && it.mem.remote == Some(i) && it.coldCopy.Some?
    ensures var it' := UploadPhase(h, active, i, it, at);
            && it'.work.Idle?
            && it'.mem.state == (if ColdCopyUsable(h, active, it) then COLD_VERIFIED else COLD_UPLOADED)
  {
    var a := ProtectItem(h, active, i, it, ColdPending);
    var b := ProtectItem(h, active, i, a, UploadBegin);
    var c := ProtectItem(h, active, i, b, UploadPublish);
    var d := ProtectItem(h, active, i, c, ColdRecord);
    assert d == c == b == a == it;
  }

  lemma ParkProgress(h: Hash, active: map<Path, Bytes>, i: ItemId, it: Item, at: int, until: int)
    requires 11 <= Position(it.mem.state) <= 14 && it.work.Idle? && it.mem.remote.Some?
    ensures ParkPhase(h, active, i, it, at, until).mem.state == QUARANTINED
  {
    var a := ProtectItem(h, active, i, it, ArchivePending);
    assert 12 <= Position(a.mem.state) <= 14 && a.work.Idle? && a.mem.remote == it.mem.remote;
    var b := ProtectItem(h, active, i, a, ColdArchive(at));
    assert 13 <= Position(b.mem.state) <= 14 && b.work.Idle?;
  }

  /** The three steps that only mark the next operation as pending. */
  lemma StateAfter(h: Hash, active: map<Path, Bytes>, i: ItemId, it: Item, step: ProtectStep)
    requires it.work.Idle? && (step.BackupPending? || step.ColdPending? || step.ArchivePending?)
    ensures var from := if step.BackupPending? then LOCAL_COMMITTED
                        else if step.ColdPending? then LOCAL_BACKUP_VERIFIED else COLD_VERIFIED;
            var it' := ProtectItem(h, active, i, it, step);
            if it.mem.state == from then it'.mem.state == OnPath(from.index + 1) && it'.work.Idle? else it' == it
  {
  }

  lemma QuarantineResult(h: Hash, active: map<Path, Bytes>, i: ItemId, it: Item, until: int)
    ensures var it' := ProtectItem(h, active, i, it, Quarantine(until));
            if At(it, COLD_ARCHIVED) then it'.mem.state == QUARANTINED else it' == it
  {
  }

  lemma BackupPhaseSkips(h: Hash, active: map<Path, Bytes>, i: ItemId, it: Item, at: int)
    requires 8 <= Position(it.mem.state) && !it.work.CopyingSnapshot?
    ensures BackupPhase(h, active, i, it, at) == it
  {
  }

  lemma UploadPhaseSkips(h: Hash, active: map<Path, Bytes>, i: ItemId, it: Item, at: int)
    requires Position(it.mem.state) < 8 || 11 <= Position(it.mem.state)
    requires !it.work.CopyingObject?
    ensures UploadPhase(h, active, i, it, at) == it
  {
  }

  lemma ColdVerifySkips(h: Hash, active: map<Path, Bytes>, i: ItemId, it: Item, at: int)
    requires it.mem.state != COLD_UPLOADED
    ensures ProtectItem(h, active, i, it, ColdVerify(at)) == it
  {
  }

  lemma ParkPhaseSkips(h: Hash, active: map<Path, Bytes>, i: ItemId, it: Item, at: int, until: int)
    requires Position(it.mem.state) < 11
    ensures ParkPhase(h, active, i, it, at, until) == it
  {
  }

  lemma FinishSafe(h: Hash, env: Env, i: ItemId, it: Item, at: int, until: int)
    requires ItemOk(h, env, i, it)
    ensures var it' := Finish(h, env.active, i, it, at, until);
            ItemOk(h, env, i, it') && SameIdentity(it, it') && Keeps(it, it')
  {
    BackupPhaseSafe(h, env, i, it, at);
    var a := BackupPhase(h, env.active, i, it, at);
    UploadPhaseSafe(h, env, i, a, at);
    ParkPhaseSafe(h, env, i, UploadPhase(h, env.active, i, a, at), at, until);
  }

  /** A run with working adapters reaches QUARANTINED exactly when neither store is blocked by a leftover
      temporary file or by other bytes under the item's key, and a copy still to be made finds the recorded
      bytes in the active file. */
  lemma FinishIff(h: Hash, env: Env, i: ItemId, it: Item, at: int, until: int)
    requires ItemOk(h, env, i, it) && Committed(it)
    ensures Finish(h, env.active, i, it, at, until).mem.state == QUARANTINED <==> Resumable(h, env.active, it)
  {
    hide BackupPhase, UploadPhase, ParkPhase;
    BackupPhaseSafe(h, env, i, it, at);
    var a := BackupPhase(h, env.active, i, it, at);
    UploadPhaseSafe(h, env, i, a, at);
    var b := UploadPhase(h, env.active, i, a, at);
    if Position(it.mem.state) <= 7 {
      BackupProgress(h, env.active, i, it, at);
    } else {
      BackupPhaseSkips(h, env.active, i, it, at);
    }
    if Position(a.mem.state) <= 7 || 11 <= Position(a.mem.state) {
      UploadPhaseSkips(h, env.active, i, a, at);
    } else if a.mem.state == COLD_UPLOADED {
      UploadedProgress(h, env.active, i, a, at);
    } else {
      UploadProgress(h, env.active, i, a, at);
    }
    if Position(b.mem.state) < 11 {
      ParkPhaseSkips(h, env.active, i, b, at, until);
    } else {
      ParkProgress(h, env.active, i, b, at, until);
    }
  }

  /** The events of a run of archive() with working adapters from LOCAL_COMMITTED on. */
  function FinishEvents(i: ItemId, at: int, until: int): seq<Event> {
    BackupEvents(i, at) + UploadEvents(i, at) + ParkEvents(i, at, until)
  }

  function BackupEvents(i: ItemId, at: int): seq<Event> {
    [] + [Protect(i, BackupPending)] + [Protect(i, SnapshotBegin)] + [Protect(i, SnapshotPublish)]
    + [Protect(i, BackupConfirm(at))]
  }

  function UploadEvents(i: ItemId, at: int): seq<Event> {
    [] + [Protect(i, ColdPending)] + [Protect(i, UploadBegin)] + [Protect(i, UploadPublish)]
    + [Protect(i, ColdRecord)] + [Protect(i, ColdVerify(at))]
  }

  function ParkEvents(i: ItemId, at: int, until: int): seq<Event> {
    [] + [Protect(i, ArchivePending)] + [Protect(i, ColdArchive(at))] + [Protect(i, Quarantine(until))]
  }

  lemma LastUpdateWins<K, V>(m: map<K, V>, k: K, a: V, b: V)
    ensures m[k := a][k := b] == m[k := b]
  {
  }

  lemma PutAgain(w: World, i: ItemId, it: Item, it': Item)
    ensures Put(Put(w, i, it), i, it') == Put(w, i, it')
    ensures Put(w, i, it).env == w.env && i in Put(w, i, it).items && Put(w, i, it).items[i] == it
  {
    LastUpdateWins(w.items, i, it, it');
  }

  lemma ProtectNext(h: Hash, w: World, trace: seq<Event>, i: ItemId, it: Item, p: ProtectStep)
    requires Run(h, w, trace) == Put(w, i, it)
    ensures Run(h, w, trace + [Protect(i, p)]) == Put(w, i, ProtectItem(h, w.env.active, i, it, p))
  {
    hide Run, ProtectItem, Put;
    PutAgain(w, i, it, ProtectItem(h, w.env.active, i, it, p));
    ProtectStepIs(h, w, trace, i, p);
  }

  lemma ThreeProtects(h: Hash, w: World, i: ItemId, a: ProtectStep, b: ProtectStep, c: ProtectStep)
    requires i in w.items
    ensures var x := ProtectItem(h, w.env.active, i, w.items[i], a);
            var y := ProtectItem(h, w.env.active, i, x, b);
            var events := [] + [Protect(i, a)] + [Protect(i, b)] + [Protect(i, c)];
            Run(h, w, events) == Put(w, i, ProtectItem(h, w.env.active, i, y, c))
  {
    assert Run(h, w, []) == Put(w, i, w.items[i]);
    hide Run, ProtectItem, Put;
    var x := ProtectItem(h, w.env.active, i, w.items[i], a);
    ProtectNext(h, w, [], i, w.items[i], a);
    ProtectNext(h, w, [] + [Protect(i, a)], i, x, b);
    ProtectNext(h, w, [] + [Protect(i, a)] + [Protect(i, b)], i, ProtectItem(h, w.env.active, i, x, b), c);
  }

  lemma BackupEventsRun(h: Hash, w: World, i: ItemId, at: int)
    requires i in w.items
    ensures Run(h, w, BackupEvents(i, at)) == Put(w, i, BackupPhase(h, w.env.active, i, w.items[i], at))
  {
    hide Run, ProtectItem, Put;
    ThreeProtects(h, w, i, BackupPending, SnapshotBegin, SnapshotPublish);
    var a := ProtectItem(h, w.env.active, i, w.items[i], BackupPending);
    var b := ProtectItem(h, w.env.active, i, a, SnapshotBegin);
    ProtectNext(h, w, [] + [Protect(i, BackupPending)] + [Protect(i, SnapshotBegin)] + [Protect(i, SnapshotPublish)],
                i, ProtectItem(h, w.env.active, i, b, SnapshotPublish), BackupConfirm(at));
  }

  lemma UploadEventsRun(h: Hash, w: World, i: ItemId, at: int)
    requires i in w.items
    ensures Run(h, w, UploadEvents(i, at)) == Put(w, i, UploadPhase(h, w.env.active, i, w.items[i], at))
  {
    hide Run, ProtectItem, Put;
    ThreeProtects(h, w, i, ColdPending, UploadBegin, UploadPublish);
    var a := ProtectItem(h, w.env.active, i, w.items[i], ColdPending);
    var c := ProtectItem(h, w.env.active, i, ProtectItem(h, w.env.active, i, a, UploadBegin), UploadPublish);
    var three := [] + [Protect(i, ColdPending)] + [Protect(i, UploadBegin)] + [Protect(i, UploadPublish)];
    ProtectNext(h, w, three, i, c, ColdRecord);
    ProtectNext(h, w, three + [Protect(i, ColdRecord)], i, ProtectItem(h, w.env.active, i, c, ColdRecord), ColdVerify(at));
  }

  /** Finishing changes the item and nothing else in the world: not the source, not active
      storage, not another item. */
  lemma FinishIsRun(h: Hash, w: World, i: ItemId, at: int, until: int)
    requires i in w.items
    ensures Run(h, w, FinishEvents(i, at, until)) == Put(w, i, Finish(h, w.env.active, i, w.items[i], at, until))
  {
    hide Run, ProtectItem, BackupPhase, UploadPhase;
    BackupEventsRun(h, w, i, at);
    RunConcat(h, w, BackupEvents(i, at), UploadEvents(i, at));
    var backed := Run(h, w, BackupEvents(i, at));
    UploadEventsRun(h, backed, i, at);
    var uploaded := Run(h, backed, UploadEvents(i, at));
    RunConcat(h, w, BackupEvents(i, at) + UploadEvents(i, at), ParkEvents(i, at, until));
    ThreeProtects(h, uploaded, i, ArchivePending, ColdArchive(at), Quarantine(until));
  }

  /** Rows of one origin, with the receipts a single undisturbed pass leaves. */
  predicate FreshReceipts(r: Row, r': Row, at: int, until: int) {
    && r'.originalPath == r.originalPath && r'.originalSize == r.originalSize
    && r'.originalModified == r.originalModified
    && (8 <= Position(r'.state) ==> r'.kopiaVerifiedAt == Some(at))
    && (11 <= Position(r'.state) ==> r'.remoteVerifiedAt == Some(at))
    && (14 <= Position(r'.state) ==> r'.quarantineExpiresAt == Some(until))
  }

  lemma StepReceipts(h: Hash, active: map<Path, Bytes>, i: ItemId, r: Row, it: Item, step: ProtectStep, at: int, until: int)
      returns (it': Item)
    requires FreshReceipts(r, it.mem, at, until)
    requires (step.BackupConfirm? ==> step.at == at) && (step.ColdVerify? ==> step.at == at)
    requires step.Quarantine? ==> step.until == until
    ensures it' == ProtectItem(h, active, i, it, step) && FreshReceipts(r, it'.mem, at, until)
  {
    it' := ProtectItem(h, active, i, it, step);
  }

  lemma BackupReceipts(h: Hash, active: map<Path, Bytes>, i: ItemId, r: Row, it: Item, at: int, until: int)
    requires FreshReceipts(r, it.mem, at, until)
    ensures FreshReceipts(r, BackupPhase(h, active, i, it, at).mem, at, until)
  {
    hide ProtectItem, FreshReceipts;
    var a := StepReceipts(h, active, i, r, it, BackupPending, at, until);
    var b := StepReceipts(h, active, i, r, a, SnapshotBegin, at, until);
    var c := StepReceipts(h, active, i, r, b, SnapshotPublish, at, until);
    var _ := StepReceipts(h, active, i, r, c, BackupConfirm(at), at, until);
  }

  lemma UploadReceipts(h: Hash, active: map<Path, Bytes>, i: ItemId, r: Row, it: Item, at: int, until: int)
    requires FreshReceipts(r, it.mem, at, until)
    ensures FreshReceipts(r, UploadPhase(h, active, i, it, at).mem, at, until)
  {
    hide ProtectItem, FreshReceipts;
    var a := StepReceipts(h, active, i, r, it, ColdPending, at, until);
    var b := StepReceipts(h, active, i, r, a, UploadBegin, at, until);
    var c := StepReceipts(h, active, i, r, b, UploadPublish, at, until);
    var d := StepReceipts(h, active, i, r, c, ColdRecord, at, until);
    var _ := StepReceipts(h, active, i, r, d, ColdVerify(at), at, until);
  }

  /** The receipts a first, undisturbed pass leaves on the row. */
  lemma FinishLeavesReceipts(h: Hash, active: map<Path, Bytes>, i: ItemId, it: Item, at: int, until: int)
    requires it.mem.state == LOCAL_COMMITTED
    ensures FreshReceipts(it.mem, Finish(h, active, i, it, at, until).mem, at, until)
  {
    hide ProtectItem, FreshReceipts, BackupPhase, UploadPhase;
    FreshStart(it.mem, at, until);
    BackupReceipts(h, active, i, it.mem, it, at, until);
    var backed := BackupPhase(h, active, i, it, at);
    UploadReceipts(h, active, i, it.mem, backed, at, until);
    var uploaded := UploadPhase(h, active, i, backed, at);
    var a := StepReceipts(h, active, i, it.mem, uploaded, ArchivePending, at, until);
    var b := StepReceipts(h, active, i, it.mem, a, ColdArchive(at), at, until);
    var _ := StepReceipts(h, active, i, it.mem, b, Quarantine(until), at, until);
  }

  lemma FreshStart(r: Row, at: int, until: int)
    requires r.state == LOCAL_COMMITTED
    ensures FreshReceipts(r, r, at, until)
  {
  }

  // ----- Interruptions -----

  /** The user writes or removes a library file. */
  predicate EditsLibrary(e: Event, sid: SourceId) {
    && sid.Library? && e.Outside?
    && (e.outside == SourceRemove(sid) || (e.outside.SourceWrite? && e.outside.sid == sid))
  }

  /** Neither rediscovery nor deletion concerns the item, nobody edits its file if that is one of the library,
      and no commit overwrites a file. */
  predicate Quiet(h: Hash, w: World, e: Event, i: ItemId) {
    && !Overwrites(h, w, e)
    && (e.Outside? || e.i != i || !(e.DeleteBegin? || (e.Stage? && e.stage.DiscoverKnown?)))
    && (i in w.items ==> !EditsLibrary(e, w.items[i].mem.sourceId))
  }

  ghost predicate QuietRun(h: Hash, w: World, events: seq<Event>, i: ItemId) {
    forall k :: 0 <= k < |events| ==> Quiet(h, Run(h, w, events[..k]), events[k], i)
  }

  /** The event does not interrupt a copy of the item's snapshot or cold object. */
  predicate SparesCopy(w: World, e: Event, i: ItemId) {
    Interruption(e, i) && i in w.items ==> w.items[i].work.Idle?
  }

  ghost predicate SparesCopies(h: Hash, w: World, events: seq<Event>, i: ItemId) {
    forall k :: 0 <= k < |events| ==> SparesCopy(Run(h, w, events[..k]), events[k], i)
  }

  lemma RunSplits(h: Hash, w: World, events: seq<Event>, i: ItemId)
    requires events != [] && QuietRun(h, w, events, i)
    ensures var earlier, e := events[..|events| - 1], events[|events| - 1];
            && QuietRun(h, w, earlier, i) && Quiet(h, Run(h, w, earlier), e, i)
            && (SparesCopies(h, w, events, i) <==>
                SparesCopies(h, w, earlier, i) && SparesCopy(Run(h, w, earlier), e, i))
  {
    hide Run, Quiet, SparesCopy;
    var n := |events| - 1;
    forall k | 0 <= k < n ensures events[..n][..k] == events[..k] && events[..n][k] == events[k] {
    }
    forall k | 0 <= k < n && SparesCopies(h, w, events[..n], i) ensures SparesCopy(Run(h, w, events[..k]), events[k], i) {
      assert SparesCopy(Run(h, w, events[..n][..k]), events[..n][k], i);
    }
    forall k | 0 <= k < n && SparesCopies(h, w, events, i)
      ensures SparesCopy(Run(h, w, events[..n][..k]), events[..n][k], i)
    {
      assert SparesCopy(Run(h, w, events[..k]), events[k], i);
    }
  }

  lemma ProtectKeepsResumable(h: Hash, env: Env, i: ItemId, it: Item, step: ProtectStep)
    requires ItemOk(h, env, i, it) && Resumable(h, env.active, it)
    ensures Resumable(h, env.active, ProtectItem(h, env.active, i, it, step))
  {
    assert WorkOk(h, env, it);
    hide ItemOk, Checkpoint, SourceAgrees;
  }

  lemma ProtectKeepsCommitted(h: Hash, active: map<Path, Bytes>, i: ItemId, it: Item, step: ProtectStep)
    requires Committed(it)
    ensures Committed(ProtectItem(h, active, i, it, step))
  {
  }

  lemma CrashReloads(h: Hash, w: World, i: ItemId)
    requires i in w.items && w.items[i].db == Some(w.items[i].mem)
    ensures i in Step(h, w, Outside(Crash)).items
    ensures Step(h, w, Outside(Crash)).items[i] == w.items[i].(work := Idle, decision := false)
  {
  }

  /** What a quiet event can do to an item on the committed stretch. */
  predicate QuietChange(h: Hash, w: World, e: Event, i: ItemId, it': Item)
    requires i in w.items
  {
    var it := w.items[i];
    || it' == it.(decision := it'.decision)
    || (Interruption(e, i) && it' == it.(work := Idle, decision := it'.decision))
    || (e.Protect? && it' == ProtectItem(h, w.env.active, i, it, e.protect))
  }

  lemma OwnQuietEvent(h: Hash, w: World, e: Event, i: ItemId)
    requires i in w.items && Committed(w.items[i]) && w.items[i].db == Some(w.items[i].mem)
    requires !e.Outside? && e.i == i && Quiet(h, w, e, i)
    ensures i in Step(h, w, e).items && QuietChange(h, w, e, i, Step(h, w, e).items[i])
  {
    hide GateSaysYes, ProtectItem, CommittedActive, Overwrites;
    var it := w.items[i];
    match e
    case Stage(_, s) => assert s.Abort? || StageItem(h, w.env, it, s) == it;
    case Settle(_, s) => assert SettleItem(it, s) == it || (s.Recover? && it.work.Idle?);
    case CommitFile(_) =>
    case Protect(_, _) =>
    case Decide(_, _) =>
    case DeleteCheck(_) =>
    case DeleteCall(_) =>
    case Rollback(_) =>
  }

  lemma QuietChangeKeeps(h: Hash, w: World, e: Event, i: ItemId, it': Item)
    requires i in w.items && Committed(w.items[i]) && QuietChange(h, w, e, i, it')
    ensures Committed(it') && SameIdentity(w.items[i], it')
  {
    hide ProtectItem;
    if e.Protect? {
      ProtectKeepsCommitted(h, w.env.active, i, w.items[i], e.protect);
      ProtectKeepsIdentity(h, w.env.active, i, w.items[i], e.protect);
    }
  }

  lemma QuietEffect(h: Hash, w: World, e: Event, i: ItemId)
    requires Inv(h, w) && i in w.items && Committed(w.items[i]) && Quiet(h, w, e, i)
    ensures i in Step(h, w, e).items && QuietChange(h, w, e, i, Step(h, w, e).items[i])
    ensures Committed(Step(h, w, e).items[i]) && SameIdentity(w.items[i], Step(h, w, e).items[i])
  {
    assert ItemOk(h, w.env, i, w.items[i]);
    hide Step, ProtectItem, RowOk, WorkOk;
    if e == Outside(Crash) {
      CrashReloads(h, w, i);
    } else if e.Outside? || e.i != i {
      OutsideLeavesItem(h, w, e, i);
    } else {
      OwnQuietEvent(h, w, e, i);
    }
    QuietChangeKeeps(h, w, e, i, Step(h, w, e).items[i]);
  }

  /** The active file of a committed item stays readable: outside the library nobody but Mnema writes it, and
      a quiet event does not edit the library file. */
  lemma StaysReadable(h: Hash, w: World, e: Event, i: ItemId)
    requires Inv(h, w) && i in w.items && Committed(w.items[i]) && Quiet(h, w, e, i)
    requires Readable(h, w.env.active, w.items[i])
    ensures Readable(h, Step(h, w, e).env.active, w.items[i])
  {
    hide Step, Run, DeletionCovered;
    StepSafe(h, w, e);
    QuietEffect(h, w, e, i);
    assert ItemOk(h, w.env, i, w.items[i]);
    assert ItemOk(h, Step(h, w, e).env, i, Step(h, w, e).items[i]);
    var sid := w.items[i].mem.sourceId;
    if sid.Library? {
      OnlyEditsChangeLibraryFiles(h, w, e, sid.name);
    }
  }

  lemma QuietStep(h: Hash, w: World, e: Event, i: ItemId)
    requires Inv(h, w) && i in w.items && Resumable(h, w.env.active, w.items[i])
    requires Quiet(h, w, e, i) && SparesCopy(w, e, i)
    ensures i in Step(h, w, e).items && Resumable(h, Step(h, w, e).env.active, Step(h, w, e).items[i])
  {
    assert ItemOk(h, w.env, i, w.items[i]);
    hide Step, ItemOk, ProtectItem;
    QuietEffect(h, w, e, i);
    if e.Protect? {
      ProtectKeepsResumable(h, w.env, i, w.items[i], e.protect);
    }
    var it' := Step(h, w, e).items[i];
    assert Resumable(h, w.env.active, it');
    if Readable(h, w.env.active, w.items[i]) {
      StaysReadable(h, w, e, i);
    }
  }

  // ----- Resume equals uninterrupted -----

  lemma InvAgrees(h: Hash, env: Env, i: ItemId, it: Item)
    requires ItemOk(h, env, i, it)
    ensures StoresAgree(it)
  {
  }

  /** After a quiet run a resumable item is resumable, or a copy was interrupted and it is stuck. */
  lemma {:induction false} QuietRunOutcome(h: Hash, w: World, events: seq<Event>, i: ItemId)
    requires Inv(h, w) && i in w.items && Resumable(h, w.env.active, w.items[i]) && QuietRun(h, w, events, i)
    ensures var w' := Run(h, w, events);
            && Inv(h, w') && i in w'.items && Committed(w'.items[i]) && SameIdentity(w.items[i], w'.items[i])
            && if SparesCopies(h, w, events, i) then Resumable(h, w'.env.active, w'.items[i])
               else SnapshotStuck(w'.items[i]) || ColdStuck(w'.items[i])
  {
    hide Inv, Resumable, Step, QuietRun, SparesCopies, Quiet, Committed, Overwrites;
    if events == [] {
      assert SparesCopies(h, w, events, i) by { NothingSpares(h, w, i); }
      assert Committed(w.items[i]) by { ResumableIsCommitted(h, w.env.active, w.items[i]); }
    } else {
      RunSplits(h, w, events, i);
      var earlier := events[..|events| - 1];
      var e := events[|events| - 1];
      QuietRunOutcome(h, w, earlier, i);
      var before := Run(h, w, earlier);
      QuietOverwritesNothing(h, before, e, i);
      StepSafe(h, before, e);
      QuietEffect(h, before, e, i);
      if !SparesCopies(h, w, earlier, i) {
        StaysStuck(h, before, e, i);
      } else if SparesCopy(before, e, i) {
        QuietStep(h, before, e, i);
      } else {
        OnlyCopiesAreUnderWay(before.items[i]);
        assert StoresAgree(before.items[i]) by { ReachedAgrees(h, before, i); }
        InterruptedIsStuck(h, before, e, i);
      }
    }
  }

  lemma QuietOverwritesNothing(h: Hash, w: World, e: Event, i: ItemId)
    requires Quiet(h, w, e, i)
    ensures !Overwrites(h, w, e)
  {
  }

  lemma NothingSpares(h: Hash, w: World, i: ItemId)
    ensures SparesCopies(h, w, [], i)
  {
  }

  lemma ResumableIsCommitted(h: Hash, active: map<Path, Bytes>, it: Item)
    requires Resumable(h, active, it)
    ensures Committed(it)
  {
  }

  lemma ReachedAgrees(h: Hash, w: World, i: ItemId)
    requires Inv(h, w) && i in w.items
    ensures StoresAgree(w.items[i])
  {
    InvAgrees(h, w.env, i, w.items[i]);
  }

  lemma OnlyCopiesAreUnderWay(it: Item)
    requires Committed(it)
    ensures it.work.Idle? || it.work.CopyingSnapshot? || it.work.CopyingObject?
  {
  }

  lemma StuckIsNotResumable(h: Hash, env: Env, i: ItemId, it: Item)
    requires ItemOk(h, env, i, it) && Committed(it) && (SnapshotStuck(it) || ColdStuck(it))
    ensures !Resumable(h, env.active, it)
  {
  }

  /** Resume equals uninterrupted: from LOCAL_COMMITTED on, take any number of crashes, aborted attempts and
      partial progress, including a copy that took effect before its commit, and then a run with working
      adapters. It ends where the undisturbed run ends, in QUARANTINED with the same digest, active path,
      snapshot and cold object and with the staged file as it was, exactly when no interruption fell inside
      the writing of the snapshot or the cold object. */
  lemma ResumeEqualsUninterrupted(h: Hash, w: World, events: seq<Event>, i: ItemId,
                                  at: int, until: int, at': int, until': int)
    requires Inv(h, w) && i in w.items && Resumable(h, w.env.active, w.items[i]) && QuietRun(h, w, events, i)
    ensures var w' := Run(h, w, events);
            && i in w'.items
            && var straight := Finish(h, w.env.active, i, w.items[i], at, until);
            var resumed := Finish(h, w'.env.active, i, w'.items[i], at', until');
            && straight.mem.state == QUARANTINED
            && (resumed.mem.state == QUARANTINED <==> SparesCopies(h, w, events, i))
            && SameIdentity(straight, resumed)
            && (resumed.mem.state == QUARANTINED ==> SameCopies(h, i, straight, resumed))
  {
    hide Run, Step, QuietRun, SparesCopies, Finish, Resumable;
    QuietRunOutcome(h, w, events, i);
    var w' := Run(h, w, events);
    ResumableIsCommitted(h, w.env.active, w.items[i]);
    assert ItemOk(h, w.env, i, w.items[i]) && ItemOk(h, w'.env, i, w'.items[i]);
    FinishIff(h, w.env, i, w.items[i], at, until);
    FinishIff(h, w'.env, i, w'.items[i], at', until');
    FinishSafe(h, w.env, i, w.items[i], at, until);
    FinishSafe(h, w'.env, i, w'.items[i], at', until');
    if !SparesCopies(h, w, events, i) {
      StuckIsNotResumable(h, w'.env, i, w'.items[i]);
    }
  }

  /** Both items have their snapshot and cold object, with the same hashes, and the second is durable. */
  predicate SameCopies(h: Hash, i: ItemId, it: Item, it': Item) {
    && it.mem.snapshotId == Some(i) && it'.mem.snapshotId == Some(i)
    && it.mem.remote == Some(i) && it'.mem.remote == Some(i)
    && it.snapshot.Some? && it'.snapshot.Some? && h(it.snapshot.value) == h(it'.snapshot.value)
    && it.coldCopy.Some? && it'.coldCopy.Some? && h(it.coldCopy.value) == h(it'.coldCopy.value)
    && it'.db == Some(it'.mem)
  }
}
