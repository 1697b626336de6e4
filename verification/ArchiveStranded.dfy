/** An interrupted copy strands the item: what a temporary file left behind means for every later run. */
module ArchiveStranded {
  import opened Basics
  import opened States
  import opened Archive

  predicate Interruption(e: Event, i: ItemId) {
    e == Outside(Crash) || e == Rollback(i) || e == Stage(i, Abort)
  }

  // ----- The leftover is never removed -----

  /** The leftover of an interrupted copy; nothing in the code removes it. */
  predicate SnapshotStuck(it: Item) {
    it.db.Some? && it.snapshot.None? && it.snapshotPartial && !it.work.CopyingSnapshot?
  }

  predicate ColdStuck(it: Item) {
    it.db.Some? && it.coldCopy.None? && it.coldPartial && !it.work.CopyingObject?
  }

  lemma StageStaysStuck(h: Hash, env: Env, it: Item, s: StageStep)
    ensures SnapshotStuck(it) ==> SnapshotStuck(StageItem(h, env, it, s))
    ensures ColdStuck(it) ==> ColdStuck(StageItem(h, env, it, s))
  {
  }

  lemma ProtectStaysStuck(h: Hash, active: map<Path, Bytes>, i: ItemId, it: Item, p: ProtectStep)
    ensures SnapshotStuck(it) ==> SnapshotStuck(ProtectItem(h, active, i, it, p))
    ensures ColdStuck(it) ==> ColdStuck(ProtectItem(h, active, i, it, p))
  {
  }

  lemma OwnEventStaysStuck(h: Hash, w: World, e: Event)
    requires !e.Outside? && e.i in w.items && w.items[e.i].db.Some?
    ensures e.i in Step(h, w, e).items
    ensures SnapshotStuck(w.items[e.i]) ==> SnapshotStuck(Step(h, w, e).items[e.i])
    ensures ColdStuck(w.items[e.i]) ==> ColdStuck(Step(h, w, e).items[e.i])
  {
    hide StageItem, ProtectItem, GateSaysYes, CommittedActive, CommitTarget, CanAdopt, CanCommitFile, SourceMatches,
         CanReachDeleting;
    match e
    case Stage(i, s) => StageStaysStuck(h, w.env, w.items[i], s);
    case Protect(i, p) => ProtectStaysStuck(h, w.env.active, i, w.items[i], p);
    case _ =>
  }

  lemma StaysStuck(h: Hash, w: World, e: Event, i: ItemId)
    requires i in w.items && w.items[i].db.Some?
    ensures i in Step(h, w, e).items
    ensures SnapshotStuck(w.items[i]) ==> SnapshotStuck(Step(h, w, e).items[i])
    ensures ColdStuck(w.items[i]) ==> ColdStuck(Step(h, w, e).items[i])
  {
    if !e.Outside? && e.i == i {
      OwnEventStaysStuck(h, w, e);
    } else if e != Outside(Crash) {
      OutsideLeavesItem(h, w, e, i);
    }
  }

  lemma {:induction false} StuckForever(h: Hash, w: World, i: ItemId, events: seq<Event>)
    requires i in w.items && (SnapshotStuck(w.items[i]) || ColdStuck(w.items[i]))
    ensures i in Run(h, w, events).items
    ensures SnapshotStuck(w.items[i]) ==> SnapshotStuck(Run(h, w, events).items[i])
    ensures ColdStuck(w.items[i]) ==> ColdStuck(Run(h, w, events).items[i])
  {
    hide Step;
    if events != [] {
      StuckForever(h, w, i, events[..|events| - 1]);
      StaysStuck(h, Run(h, w, events[..|events| - 1]), events[|events| - 1], i);
    }
  }

  // ----- A row past a store has its copy there -----

  /** What rows say about the stores, whatever happens to active storage: a row past a store has its copy
      there, and a copy under way has its temporary file. */
  predicate StoresAgree(it: Item) {
    && (8 <= Position(it.mem.state) ==> it.snapshot.Some?)
    && (10 <= Position(it.mem.state) ==> it.coldCopy.Some?)
    && (it.db.Some? && 8 <= Position(it.db.value.state) ==> it.snapshot.Some?)
    && (it.db.Some? && 10 <= Position(it.db.value.state) ==> it.coldCopy.Some?)
    && (3 <= Position(it.mem.state) <= 17 ==> it.db == Some(it.mem))
    && match it.work
       case CopyingSnapshot => it.mem.state == LOCAL_BACKUP_PENDING && it.snapshot.None? && it.snapshotPartial
       case CopyingObject => it.mem.state == COLD_UPLOAD_PENDING && it.coldCopy.None? && it.coldPartial
       case Transferring(_) => it.mem.state == DOWNLOADING
       case Moved(_) => it.mem.state == LOCAL_VERIFIED
       case DeleteReady => it.mem.state == DELETING
       case DeleteChecked => it.mem.state == DELETING
       case DeleteDone => it.mem.state == DELETING
       case Idle => true
  }

  ghost predicate AllAgree(w: World) {
    forall i :: i in w.items ==> StoresAgree(w.items[i])
  }

  lemma StageAgrees(h: Hash, env: Env, it: Item, s: StageStep)
    requires StoresAgree(it)
    ensures StoresAgree(StageItem(h, env, it, s))
  {
  }

  lemma ProtectAgrees(h: Hash, active: map<Path, Bytes>, i: ItemId, it: Item, p: ProtectStep)
    requires StoresAgree(it)
    ensures StoresAgree(ProtectItem(h, active, i, it, p))
  {
  }

  lemma SettleAgrees(it: Item, s: SettleStep)
    requires StoresAgree(it)
    ensures StoresAgree(SettleItem(it, s))
  {
  }

  lemma DeletionAgrees(it: Item)
    requires StoresAgree(it)
    ensures it.work.Idle? ==> StoresAgree(it.(mem := it.mem.(state := SourceChanged), decision := false))
    ensures it.work.Idle? && CanReachDeleting(it.mem.state) ==>
      StoresAgree(Saved(it, it.mem.(state := DELETING)).(work := DeleteReady))
    ensures it.work.DeleteReady? || it.work.DeleteChecked? ==>
      && StoresAgree(it.(mem := it.mem.(state := ManualReview), work := Idle))
      && StoresAgree(it.(mem := it.mem.(state := SourceChanged), work := Idle))
      && StoresAgree(it.(work := DeleteChecked)) && StoresAgree(it.(work := DeleteDone))
  {
    OnlyPredecessor(it.mem.state, DELETING);
  }

  lemma OtherStepsAgree(h: Hash, env: Env, it: Item, path: Path, d: bool)
    requires StoresAgree(it)
    ensures it.db.Some? ==> StoresAgree(Reloaded(it))
    ensures StoresAgree(it.(decision := d))
    ensures CanAdopt(h, env, it) || CanCommitFile(h, it) ==> StoresAgree(it.(staged := None, work := Moved(path)))
  {
  }

  lemma PutAgrees(w: World, w': World, i: ItemId)
    requires AllAgree(w) && i in w'.items && w'.items == w.items[i := w'.items[i]] && StoresAgree(w'.items[i])
    ensures AllAgree(w')
  {
    hide StoresAgree;
  }

  lemma OutsideAgrees(h: Hash, w: World, o: OutsideStep)
    requires AllAgree(w)
    ensures AllAgree(OutsideWorld(w, o))
  {
    hide StoresAgree, SourceWritten, SourceRemoved, NewRow;
    match o
    case Crash =>
      forall i | i in OutsideWorld(w, Crash).items ensures StoresAgree(OutsideWorld(w, Crash).items[i]) {
        OtherStepsAgree(h, w.env, w.items[i], "", false);
      }
    case DiscoverNew(i, sid, eligible) =>
      if OutsideWorld(w, o) != w {
        NewAgrees(sid, w.env.sources[sid], eligible);
        PutAgrees(w, OutsideWorld(w, o), i);
      }
    case _ =>
  }

  lemma NewAgrees(sid: SourceId, obj: SourceObject, eligible: bool)
    ensures StoresAgree(Item(NewRow(sid, obj, eligible), None, None, None, false, None, false, Idle, false))
  {
  }

  lemma CommitFileAgrees(h: Hash, w: World, i: ItemId)
    requires AllAgree(w) && i in w.items
    ensures AllAgree(CommitFileStep(h, w, i))
  {
    hide StoresAgree, CommittedActive, CommitTarget, CanAdopt;
    var w' := CommitFileStep(h, w, i);
    OtherStepsAgree(h, w.env, w.items[i], if w'.items[i].work.Moved? then w'.items[i].work.path else "", false);
    PutAgrees(w, w', i);
  }

  lemma DeleteBeginAgrees(w: World, i: ItemId, canDelete: bool)
    requires AllAgree(w) && i in w.items
    ensures AllAgree(DeleteBeginStep(w, i, canDelete))
  {
    hide StoresAgree, SourceMatches, CanReachDeleting;
    var w' := DeleteBeginStep(w, i, canDelete);
    DeletionAgrees(w.items[i]);
    OtherStepsAgree(_ => "", w.env, w.items[i], "", false);
    if i in w'.items {
      PutAgrees(w, w', i);
    }
  }

  lemma DeleteCallAgrees(w: World, i: ItemId)
    requires AllAgree(w) && i in w.items
    ensures AllAgree(DeleteCheckStep(w, i)) && AllAgree(DeleteCallStep(w, i))
  {
    hide StoresAgree;
    DeletionAgrees(w.items[i]);
    PutAgrees(w, DeleteCheckStep(w, i), i);
    PutAgrees(w, DeleteCallStep(w, i), i);
  }

  lemma StepAgrees(h: Hash, w: World, e: Event)
    requires AllAgree(w)
    ensures AllAgree(Step(h, w, e))
  {
    if e.Outside? {
      OutsideAgrees(h, w, e.outside);
    } else if e.i in w.items {
      hide StoresAgree, StageItem, ProtectItem, SettleItem, DeleteBeginStep, DeleteCheckStep, DeleteCallStep,
           CommitFileStep, GateSaysYes;
      var it := w.items[e.i];
      var w' := Step(h, w, e);
      OtherStepsAgree(h, w.env, it, "", e.Decide? && GateSaysYes(h, w.env, it.mem, e.ctx));
      match e
      case Stage(_, s) => StageAgrees(h, w.env, it, s); PutAgrees(w, w', e.i);
      case Protect(_, p) => ProtectAgrees(h, w.env.active, e.i, it, p); PutAgrees(w, w', e.i);
      case Settle(_, s) => SettleAgrees(it, s); PutAgrees(w, w', e.i);
      case DeleteBegin(_, canDelete) => DeleteBeginAgrees(w, e.i, canDelete);
      case DeleteCheck(_) => DeleteCallAgrees(w, e.i);
      case DeleteCall(_) => DeleteCallAgrees(w, e.i);
      case CommitFile(_) => CommitFileAgrees(h, w, e.i);
      case Decide(_, _) => PutAgrees(w, w', e.i);
      case Rollback(_) =>
        if e.i in w'.items {
          PutAgrees(w, w', e.i);
        }
    }
  }

  lemma {:induction false} AlwaysAgree(h: Hash, w: World, events: seq<Event>)
    requires AllAgree(w)
    ensures AllAgree(Run(h, w, events))
  {
    hide AllAgree, Step;
    if events != [] {
      AlwaysAgree(h, w, events[..|events| - 1]);
      StepAgrees(h, Run(h, w, events[..|events| - 1]), events[|events| - 1]);
    }
  }

  // ----- Stranded for good -----

  lemma InterruptedIsStuck(h: Hash, w: World, e: Event, i: ItemId)
    requires i in w.items && StoresAgree(w.items[i]) && Interruption(e, i)
    ensures w.items[i].work.CopyingSnapshot? ==> i in Step(h, w, e).items && SnapshotStuck(Step(h, w, e).items[i])
    ensures w.items[i].work.CopyingObject? ==> i in Step(h, w, e).items && ColdStuck(Step(h, w, e).items[i])
  {
  }

  /** A crash, rollback or failure inside the snapshot copy leaves its temporary file behind. From then on,
      whatever happens, rediscovery and requeueing included, the item never has a snapshot again and never
      reaches LOCAL_BACKUP_VERIFIED; the same for the cold object and COLD_UPLOADED. */
  lemma InterruptedCopyStrands(h: Hash, before: seq<Event>, e: Event, i: ItemId, after: seq<Event>)
    requires i in Run(h, EMPTY_WORLD, before).items && Interruption(e, i)
    ensures var copying := Run(h, EMPTY_WORLD, before).items[i].work;
            var w' := Run(h, Step(h, Run(h, EMPTY_WORLD, before), e), after);
            copying.CopyingSnapshot? || copying.CopyingObject? ==>
            && i in w'.items && w'.items[i].db.Some?
            && var it' := w'.items[i];
            && (copying.CopyingSnapshot? ==>
                it'.snapshot.None? && Position(it'.mem.state) < 8 && Position(it'.db.value.state) < 8)
            && (copying.CopyingObject? ==>
                it'.coldCopy.None? && Position(it'.mem.state) < 10 && Position(it'.db.value.state) < 10)
  {
    hide Run, Step;
    var w := Run(h, EMPTY_WORLD, before);
    AlwaysAgree(h, EMPTY_WORLD, before);
    if w.items[i].work.CopyingSnapshot? || w.items[i].work.CopyingObject? {
      InterruptedIsStuck(h, w, e, i);
      StepAgrees(h, w, e);
      AlwaysAgree(h, Step(h, w, e), after);
      StuckForever(h, Step(h, w, e), i, after);
      assert StoresAgree(Run(h, Step(h, w, e), after).items[i]);
    }
  }
}
