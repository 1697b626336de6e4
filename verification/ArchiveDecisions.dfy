/** What stands behind every deletion: a decision of the gate on that item, and what the gate saw when it
    decided (src/mnema/domain/workflow.py, src/mnema/policies/deletion.py). */
module ArchiveDecisions {
  import opened Basics
  import opened States
  import opened Gate
  import opened Archive
  import opened ArchiveSafety
  import opened ArchiveStranded

  // ----- What a decision means -----

  /** Switches, readings, receipts, quarantine, active file, source and run limits, one by one. */
  predicate Cleared(h: Hash, active: map<Path, Bytes>, sources: map<SourceId, SourceObject>, r: Row, ctx: GateContext) {
    && ctx.activeDiskHealthy && ctx.backupDiskHealthy && ctx.storageDevicesDiffer
    && ctx.sqliteIntegrityHealthy && ctx.remoteAvailable
    && ctx.globalDeletionEnabled && ctx.sourceDeletionEnabled && !ctx.safetyLock
    && (ctx.manualApprovalRequired ==> ctx.manualApprovalGranted)
    && r.kopiaVerifiedAt.Some? && r.remoteVerifiedAt.Some?
    && r.quarantineExpiresAt.Some? && r.quarantineExpiresAt.value <= ctx.now
    && r.nasPath.Some? && r.nasPath.value in active
    && |active[r.nasPath.value]| == r.originalSize && r.sha == Some(h(active[r.nasPath.value]))
    && ShowsRecorded(sources, r)
    && ctx.usage.filesDeleted < ctx.limits.maxFiles
    && ctx.usage.bytesDeleted + r.originalSize <= ctx.limits.maxBytes
    && ctx.usage.eligibleFiles > 0
    && (ctx.usage.filesDeleted + 1) as real * 100.0 <= ctx.limits.maxPercentage * ctx.usage.eligibleFiles as real
  }

  /** The source shows the object the row was made from. */
  predicate ShowsRecorded(sources: map<SourceId, SourceObject>, r: Row) {
    && r.sourceId in sources
    && sources[r.sourceId].path == r.originalPath && |sources[r.sourceId].content| == r.originalSize
    && sources[r.sourceId].modified == r.originalModified && sources[r.sourceId].version == r.sourceVersion
  }

  /** The gate, asked about the facts gathered for an item, allows exactly that. */
  lemma ClearedIff(h: Hash, active: map<Path, Bytes>, sources: map<SourceId, SourceObject>, r: Row, ctx: GateContext)
    ensures GateSaysYes(h, Env(active, sources, {}), r, ctx) <==> Cleared(h, active, sources, r, ctx)
  {
  }

  lemma SeenIsNoFact(h: Hash, env: Env, r: Row, ctx: GateContext)
    ensures GateSaysYes(h, env, r, ctx) == GateSaysYes(h, Env(env.active, env.sources, {}), r, ctx)
  {
  }

  lemma GateSaysYesIs(h: Hash, env: Env, r: Row, ctx: GateContext)
    ensures GateSaysYes(h, env, r, ctx) == GateOpen(Facts(h, env, r, ctx), ctx.usage, ctx.limits, r.originalSize, ctx.now)
  {
  }

  // ----- Decisions over runs -----

  /** The process asked the gate about the item as it stood. */
  predicate Asked(w: World, e: Event, i: ItemId) {
    e.Decide? && e.i == i && i in w.items && w.items[i].work.Idle?
  }

  /** Event k of the run is the latest decision on the item, and what it saw was clear. */
  ghost predicate DecidedAt(h: Hash, events: seq<Event>, k: nat, i: ItemId) {
    && k < |events|
    && var w := Run(h, EMPTY_WORLD, events[..k]);
    && Asked(w, events[k], i)
    && Cleared(h, w.env.active, w.env.sources, w.items[i].mem, events[k].ctx)
    && forall j :: k < j < |events| ==> !Asked(Run(h, EMPTY_WORLD, events[..j]), events[j], i)
  }

  ghost predicate Decided(h: Hash, events: seq<Event>, i: ItemId) {
    exists k: nat :: DecidedAt(h, events, k, i)
  }

  lemma StageKeepsDecision(h: Hash, env: Env, it: Item, s: StageStep)
    ensures StageItem(h, env, it, s).decision == it.decision
  {
  }

  lemma ProtectKeepsDecision(h: Hash, active: map<Path, Bytes>, i: ItemId, it: Item, p: ProtectStep)
    ensures ProtectItem(h, active, i, it, p).decision == it.decision
  {
  }

  /** A decision stands only where the gate gave it, or stood already. */
  lemma DecisionComesFromTheGate(h: Hash, w: World, e: Event, i: ItemId)
    requires i in Step(h, w, e).items && Step(h, w, e).items[i].decision
    ensures i in w.items
    ensures Asked(w, e, i) ==> GateSaysYes(h, w.env, w.items[i].mem, e.ctx)
    ensures !Asked(w, e, i) ==> w.items[i].decision
  {
    hide StageItem, ProtectItem, GateSaysYes, CanAdopt, CanCommitFile, CommitTarget, CommittedActive, SourceMatches,
         CanReachDeleting;
    if !e.Outside? && e.i == i && i in w.items {
      match e
      case Stage(_, s) => StageKeepsDecision(h, w.env, w.items[i], s);
      case Protect(_, p) => ProtectKeepsDecision(h, w.env.active, i, w.items[i], p);
      case _ =>
    } else if e.Outside? {
      OutsideDecidesNothing(h, w, e, i);
    } else {
      OtherItemStays(h, w, e, i);
    }
  }

  lemma OutsideDecidesNothing(h: Hash, w: World, e: Event, i: ItemId)
    requires e.Outside? && i in Step(h, w, e).items && Step(h, w, e).items[i].decision
    ensures i in w.items && w.items[i].decision
  {
    hide SourceWritten, SourceRemoved;
  }

  lemma OtherItemStays(h: Hash, w: World, e: Event, i: ItemId)
    requires !e.Outside? && (e.i != i || i !in w.items)
    ensures i in Step(h, w, e).items <==> i in w.items
    ensures i in w.items ==> Step(h, w, e).items[i] == w.items[i]
  {
    hide StageItem, ProtectItem, SettleItem, GateSaysYes, CanAdopt, CanCommitFile, CommitTarget, CommittedActive,
         SourceMatches, CanReachDeleting;
  }

  /** One more event leaves an earlier decision standing if it asks nothing. */
  lemma DecidedOneMore(h: Hash, events: seq<Event>, i: ItemId)
    requires events != []
    requires Decided(h, events[..|events| - 1], i)
    requires !Asked(Run(h, EMPTY_WORLD, events[..|events| - 1]), events[|events| - 1], i)
    ensures Decided(h, events, i)
  {
    hide Run, Asked, Cleared;
    var n := |events| - 1;
    var k: nat :| DecidedAt(h, events[..n], k, i);
    assert events[..n][..k] == events[..k] && events[..n][k] == events[k];
    forall j | k < j < |events| ensures !Asked(Run(h, EMPTY_WORLD, events[..j]), events[j], i) {
      if j < n {
        assert events[..n][..j] == events[..j] && events[..n][j] == events[j];
      }
    }
    assert DecidedAt(h, events, k, i);
  }

  /** Whenever a decision to delete stands, the latest time the gate was asked about the item it saw every
      switch, reading, receipt, file, source and limit in order. */
  lemma {:induction false} DecisionWasGiven(h: Hash, events: seq<Event>, i: ItemId)
    requires i in Run(h, EMPTY_WORLD, events).items && Run(h, EMPTY_WORLD, events).items[i].decision
    ensures Decided(h, events, i)
  {
    hide Step, GateSaysYes, Cleared;
    if events != [] {
      var n := |events| - 1;
      var w := Run(h, EMPTY_WORLD, events[..n]);
      DecisionComesFromTheGate(h, w, events[n], i);
      if Asked(w, events[n], i) {
        SeenIsNoFact(h, w.env, w.items[i].mem, events[n].ctx);
        ClearedIff(h, w.env.active, w.env.sources, w.items[i].mem, events[n].ctx);
        assert DecidedAt(h, events, n, i);
      } else {
        DecisionWasGiven(h, events[..n], i);
        DecidedOneMore(h, events, i);
      }
    }
  }

  // ----- Deletions over runs -----

  /** A process that is deleting holds the decision it deletes by. */
  predicate HoldsDecision(it: Item) {
    it.work.DeleteReady? || it.work.DeleteChecked? || it.work.DeleteDone? ==> it.decision
  }

  lemma StageHolds(h: Hash, env: Env, it: Item, s: StageStep)
    requires HoldsDecision(it)
    ensures HoldsDecision(StageItem(h, env, it, s))
  {
  }

  lemma ProtectHolds(h: Hash, active: map<Path, Bytes>, i: ItemId, it: Item, p: ProtectStep)
    requires HoldsDecision(it)
    ensures HoldsDecision(ProtectItem(h, active, i, it, p))
  {
  }

  lemma StepHolds(h: Hash, w: World, e: Event, i: ItemId)
    requires i in w.items ==> HoldsDecision(w.items[i])
    ensures i in Step(h, w, e).items ==> HoldsDecision(Step(h, w, e).items[i])
  {
    hide StageItem, ProtectItem, GateSaysYes, CanAdopt, CanCommitFile, CommitTarget, CommittedActive, SourceMatches,
         CanReachDeleting, SourceWritten, SourceRemoved, NewRow;
    if !e.Outside? && (e.i != i || i !in w.items) {
      OtherItemStays(h, w, e, i);
    } else if !e.Outside? {
      match e
      case Stage(_, s) => StageHolds(h, w.env, w.items[i], s);
      case Protect(_, p) => ProtectHolds(h, w.env.active, i, w.items[i], p);
      case _ =>
    }
  }

  lemma {:induction false} DeletersHoldDecisions(h: Hash, events: seq<Event>, i: ItemId)
    requires i in Run(h, EMPTY_WORLD, events).items
    ensures HoldsDecision(Run(h, EMPTY_WORLD, events).items[i])
  {
    hide Step;
    if events != [] {
      var n := |events| - 1;
      if i in Run(h, EMPTY_WORLD, events[..n]).items {
        DeletersHoldDecisions(h, events[..n], i);
      }
      StepHolds(h, Run(h, EMPTY_WORLD, events[..n]), events[n], i);
    }
  }

  /** Whatever Mnema takes off the source, in any run at all, it takes by a decision whose gate saw everything
      in order. */
  lemma DeletionsAreDecided(h: Hash, events: seq<Event>, e: Event, sid: SourceId)
    requires var w := Run(h, EMPTY_WORLD, events);
             && sid in w.env.sources && sid !in Step(h, w, e).env.sources
             && e != Outside(SourceRemove(sid))
    ensures e.DeleteCall? && Decided(h, events, e.i)
  {
    hide Run;
    var w := Run(h, EMPTY_WORLD, events);
    OnlyDeleteCallRemoves(h, w, e, sid);
    DeletersHoldDecisions(h, events, e.i);
    DecisionWasGiven(h, events, e.i);
  }

  /** A durable row gets into DELETING only from the last stretch of the path, for an item of a source that can
      delete and still shows the recorded object, and by a decision whose gate saw everything in order. */
  lemma DeletingIsEntered(h: Hash, events: seq<Event>, e: Event, i: ItemId)
    requires var w := Run(h, EMPTY_WORLD, events);
             && i in w.items && w.items[i].db.Some? && w.items[i].db.value.state != DELETING
             && i in Step(h, w, e).items && Step(h, w, e).items[i].db.Some?
             && Step(h, w, e).items[i].db.value.state == DELETING
    ensures e == DeleteBegin(i, true) && Decided(h, events, i)
    ensures var w := Run(h, EMPTY_WORLD, events);
            var r := w.items[i].mem;
            && r.sourceId.Separate? && ShowsRecorded(w.env.sources, r)
            && (r.state == QUARANTINED || r.state == READY_FOR_REVALIDATION || r.state == READY_FOR_DELETION)
  {
    hide Run;
    var w := Run(h, EMPTY_WORLD, events);
    AlwaysAgree(h, EMPTY_WORLD, events);
    assert StoresAgree(w.items[i]);
    OnlyBeginEntersDeleting(h, w, e, i);
    DecisionWasGiven(h, events, i);
  }

  lemma OnlyBeginEntersDeleting(h: Hash, w: World, e: Event, i: ItemId)
    requires i in w.items && StoresAgree(w.items[i]) && w.items[i].db.Some? && w.items[i].db.value.state != DELETING
    requires i in Step(h, w, e).items && Step(h, w, e).items[i].db.Some?
    requires Step(h, w, e).items[i].db.value.state == DELETING
    ensures e == DeleteBegin(i, true) && w.items[i].decision
    ensures var r := w.items[i].mem;
            && r.sourceId.Separate? && ShowsRecorded(w.env.sources, r)
            && (r.state == QUARANTINED || r.state == READY_FOR_REVALIDATION || r.state == READY_FOR_DELETION)
  {
    hide StageItem, ProtectItem, GateSaysYes, CanAdopt, CanCommitFile, CommitTarget, CommittedActive;
    OnlyPredecessor(w.items[i].mem.state, DELETING);
    if e.Outside? || e.i != i {
      if e != Outside(Crash) {
        OutsideLeavesItem(h, w, e, i);
      }
    } else {
      match e
      case Stage(_, s) => StageEntersNothing(h, w.env, w.items[i], s);
      case Protect(_, p) => ProtectEntersNothing(h, w.env.active, i, w.items[i], p);
      case _ =>
    }
  }

  lemma StageEntersNothing(h: Hash, env: Env, it: Item, s: StageStep)
    ensures var db := StageItem(h, env, it, s).db; db == it.db || (db.Some? && db.value.state != DELETING)
  {
  }

  lemma ProtectEntersNothing(h: Hash, active: map<Path, Bytes>, i: ItemId, it: Item, p: ProtectStep)
    ensures var db := ProtectItem(h, active, i, it, p).db; db == it.db || (db.Some? && db.value.state != DELETING)
  {
  }

  /** Both disks healthy, on different devices, and the database intact. */
  predicate Sound(ctx: GateContext) {
    ctx.activeDiskHealthy && ctx.backupDiskHealthy && ctx.storageDevicesDiffer && ctx.sqliteIntegrityHealthy
  }

  /** A shut switch, a closed lock or an unsound store at every decision of a run keeps the source whole. */
  lemma {:induction false} NothingIsDeletedWhileLocked(h: Hash, events: seq<Event>)
    requires forall k :: 0 <= k < |events| && events[k].Decide? ==>
               events[k].ctx.safetyLock || !events[k].ctx.globalDeletionEnabled || !events[k].ctx.sourceDeletionEnabled
               || !Sound(events[k].ctx)
    ensures Run(h, EMPTY_WORLD, events).log == []
  {
    hide Step, Cleared, Asked;
    if events != [] {
      var n := |events| - 1;
      NothingIsDeletedWhileLocked(h, events[..n]);
      var w := Run(h, EMPTY_WORLD, events[..n]);
      if Step(h, w, events[n]).log != w.log {
        OnlyDeleteCallLogs(h, w, events[n]);
        DeletersHoldDecisions(h, events[..n], events[n].i);
        DecisionWasGiven(h, events[..n], events[n].i);
        var k: nat :| DecidedAt(h, events[..n], k, events[n].i);
        ClearedNeedsSwitches(h, events, n, k);
      }
    }
  }

  lemma ClearedNeedsSwitches(h: Hash, events: seq<Event>, n: nat, k: nat)
    requires n < |events| && events[n].DeleteCall? && DecidedAt(h, events[..n], k, events[n].i)
    ensures events[k].Decide? && k < |events|
    ensures var c := events[k].ctx; !c.safetyLock && c.globalDeletionEnabled && c.sourceDeletionEnabled && Sound(c)
  {
    assert events[..n][k] == events[k];
  }

  lemma OnlyDeleteCallLogs(h: Hash, w: World, e: Event)
    requires Step(h, w, e).log != w.log
    ensures e.DeleteCall? && e.i in w.items && w.items[e.i].work.DeleteChecked?
  {
    hide StageItem, ProtectItem, GateSaysYes, CanAdopt, CanCommitFile, CommitTarget, CommittedActive, SourceMatches,
         CanReachDeleting;
  }

  // ----- What policy refuses -----

  /** The event does not let the item in: whenever the item is discovered the policy refuses it, and a known
      item is found as it was recorded. */
  predicate Refuses(w: World, e: Event, i: ItemId) {
    && (e.Outside? && e.outside.DiscoverNew? && e.outside.i == i ==> !e.outside.eligible)
    && (!e.Outside? && e.i == i && i in w.items && e.Stage? && e.stage.DiscoverKnown? ==>
          !e.stage.eligible && (w.items[i].mem.sourceId in w.env.sources ==> ShowsRecorded(w.env.sources, w.items[i].mem)))
  }

  ghost predicate AlwaysRefuses(h: Hash, events: seq<Event>, i: ItemId) {
    forall k :: 0 <= k < |events| ==> Refuses(Run(h, EMPTY_WORLD, events[..k]), events[k], i)
  }

  predicate Untouched(r: Row) {
    r.state.Ineligible? && r.sha.None? && r.nasPath.None? && r.snapshotId.None? && r.remote.None?
  }

  predicate LeftAlone(it: Item) {
    && Untouched(it.mem) && (it.db.Some? ==> Untouched(it.db.value))
    && it.staged.None? && it.snapshot.None? && it.coldCopy.None? && it.work.Idle? && !it.decision
  }

  lemma RefusedStage(h: Hash, env: Env, it: Item, s: StageStep)
    requires LeftAlone(it)
    requires s.DiscoverKnown? ==> !s.eligible && (it.mem.sourceId in env.sources ==> ShowsRecorded(env.sources, it.mem))
    ensures LeftAlone(StageItem(h, env, it, s))
  {
  }

  lemma RefusedStep(h: Hash, w: World, e: Event, i: ItemId)
    requires (i in w.items ==> LeftAlone(w.items[i])) && Refuses(w, e, i)
    ensures i in Step(h, w, e).items ==> LeftAlone(Step(h, w, e).items[i])
  {
    hide StageItem, SourceWritten, SourceRemoved, CommitTarget, CommittedActive, SourceMatches;
    if !e.Outside? && (e.i != i || i !in w.items) {
      OtherItemStays(h, w, e, i);
    } else if e.Stage? {
      RefusedStage(h, w.env, w.items[i], e.stage);
    }
  }

  /** What the policy refuses whenever it is discovered is never downloaded, copied or decided upon, unless its
      source changed. */
  lemma {:induction false} IneligibleIsLeftAlone(h: Hash, events: seq<Event>, i: ItemId)
    requires AlwaysRefuses(h, events, i) && i in Run(h, EMPTY_WORLD, events).items
    ensures LeftAlone(Run(h, EMPTY_WORLD, events).items[i])
  {
    hide Step, LeftAlone, Refuses;
    if events != [] {
      var n := |events| - 1;
      forall k | 0 <= k < n ensures Refuses(Run(h, EMPTY_WORLD, events[..n][..k]), events[..n][k], i) {
        assert events[..n][..k] == events[..k] && Refuses(Run(h, EMPTY_WORLD, events[..k]), events[k], i);
      }
      if i in Run(h, EMPTY_WORLD, events[..n]).items {
        IneligibleIsLeftAlone(h, events[..n], i);
      }
      RefusedStep(h, Run(h, EMPTY_WORLD, events[..n]), events[n], i);
    }
  }
}
