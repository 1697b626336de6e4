/** The archive workflow in several sessions at once. A session keeps its own copy of each row it loaded, also
    across its commits (expire_on_commit=False, src/mnema/jobs/database.py:31), and a commit writes the columns it
    changed over whatever the table holds by then. As long as no two sessions have the same row, this is the
    machine of `Archive`; with two, Mnema can delete bytes nobody else holds. */
module ArchiveSessions {
  import opened Basics
  import opened States
  import opened Archive
  import opened ArchiveSafety

  type SessionId = nat

  /** A session's copy of a row: as it has it, and as it loaded or last committed it. */
  datatype Loaded = Loaded(mem: Row, base: Option<Row>, work: Work, decision: bool)

  /** What exists once: the row in the table and the files under the item's id. */
  datatype Stored = Stored(
    db: Option<Row>,
    staged: Option<Bytes>,
    snapshot: Option<Bytes>,
    snapshotPartial: bool,
    coldCopy: Option<Bytes>,
    coldPartial: bool)

  datatype Shared = Shared(
    env: Env,
    stored: map<ItemId, Stored>,
    loaded: map<(SessionId, ItemId), Loaded>,
    log: seq<Deletion>)

  const NO_SESSIONS := Shared(Env(map[], map[], {}), map[], map[], [])

  datatype SharedEvent =
    | Load(s: SessionId, i: ItemId)
    | Forget(s: SessionId, i: ItemId)
    | Discover(s: SessionId, i: ItemId, sid: SourceId, eligible: bool)
    | Act(s: SessionId, e: Event)
    | Around(o: OutsideStep)

  // ----- One step of one session -----

  function Pick<T(==)>(durable: T, base: T, mine: T): T {
    if mine == base then durable else mine
  }

  /** The table's row after a session wrote the columns it changed. */
  function MergeRow(d: Row, b: Row, m: Row): Row {
    Row(Pick(d.state, b.state, m.state), Pick(d.sourceId, b.sourceId, m.sourceId),
        Pick(d.originalPath, b.originalPath, m.originalPath), Pick(d.originalSize, b.originalSize, m.originalSize),
        Pick(d.originalModified, b.originalModified, m.originalModified),
        Pick(d.sourceVersion, b.sourceVersion, m.sourceVersion), Pick(d.sha, b.sha, m.sha),
        Pick(d.nasPath, b.nasPath, m.nasPath), Pick(d.snapshotId, b.snapshotId, m.snapshotId),
        Pick(d.kopiaVerifiedAt, b.kopiaVerifiedAt, m.kopiaVerifiedAt), Pick(d.remote, b.remote, m.remote),
        Pick(d.remoteVerifiedAt, b.remoteVerifiedAt, m.remoteVerifiedAt),
        Pick(d.coldArchivedAt, b.coldArchivedAt, m.coldArchivedAt),
        Pick(d.quarantineExpiresAt, b.quarantineExpiresAt, m.quarantineExpiresAt),
        Pick(d.deletedAt, b.deletedAt, m.deletedAt))
  }

  /** A session that changed nothing writes nothing; one that last saw the row as it is writes it as it has it; and
      sessions that changed different columns both have their way. */
  lemma MergeLaws(d: Row, b: Row, m: Row)
    ensures MergeRow(d, b, b) == d
    ensures MergeRow(d, d, m) == m
    ensures MergeRow(b.(state := d.state), b, b.(sha := m.sha)) == b.(state := d.state, sha := m.sha)
  {
  }

  function Merge(durable: Option<Row>, base: Option<Row>, mine: Option<Row>): Option<Row> {
    if mine.None? then durable
    else if base.None? || durable.None? then mine
    else Some(MergeRow(durable.value, base.value, mine.value))
  }

  /** An item as a session sees it. */
  function Seen(st: Stored, l: Loaded): Item {
    Item(l.mem, l.base, st.staged, st.snapshot, st.snapshotPartial, st.coldCopy, st.coldPartial, l.work, l.decision)
  }

  function StoredAs(it: Item, db: Option<Row>): Stored {
    Stored(db, it.staged, it.snapshot, it.snapshotPartial, it.coldCopy, it.coldPartial)
  }

  /** The step rolls the session back: an explicit rollback, or a deletion the graph refuses. */
  predicate RollsBack(env: Env, it: Item, e: Event) {
    || e.Rollback?
    || (e.DeleteBegin? && it.work.Idle? && e.canDelete && it.mem.sourceId.Separate? && it.decision
        && it.mem.sourceId in env.sources && SourceMatches(it.mem, env.sources[it.mem.sourceId])
        && !CanReachDeleting(it.mem.state))
  }

  /** The session drops its copy; a row it never committed is gone. */
  function Forgotten(x: Shared, s: SessionId, i: ItemId): Shared {
    x.(loaded := x.loaded - {(s, i)},
       stored := if i in x.stored && x.stored[i].db.None? then x.stored - {i} else x.stored)
  }

  /** The archive step, taken on the session's copy; what it saves is merged into the table. */
  function Acted(h: Hash, x: Shared, s: SessionId, e: Event): Shared {
    if e.Outside? || (s, e.i) !in x.loaded || e.i !in x.stored then x
    else
      var it := Seen(x.stored[e.i], x.loaded[(s, e.i)]);
      var w := Step(h, World(x.env, map[e.i := it], x.log), e);
      if RollsBack(x.env, it, e) || e.i !in w.items then Forgotten(x, s, e.i)
      else
        var it' := w.items[e.i];
        Shared(w.env, x.stored[e.i := StoredAs(it', Merge(x.stored[e.i].db, it.db, it'.db))],
               x.loaded[(s, e.i) := Loaded(it'.mem, it'.db, it'.work, it'.decision)], w.log)
  }

  predicate HasSource(x: Shared, sid: SourceId) {
    || (exists i :: i in x.stored && x.stored[i].db.Some? && x.stored[i].db.value.sourceId == sid)
    || (exists k :: k in x.loaded && x.loaded[k].mem.sourceId == sid)
  }

  predicate CanDiscover(x: Shared, i: ItemId, sid: SourceId) {
    i !in x.stored && sid in x.env.sources && !HasSource(x, sid)
  }

  function StepShared(h: Hash, x: Shared, e: SharedEvent): Shared {
    match e
    case Load(s, i) =>
      if i !in x.stored || x.stored[i].db.None? || (s, i) in x.loaded then x
      else x.(loaded := x.loaded[(s, i) := Loaded(x.stored[i].db.value, x.stored[i].db, Idle, false)])
    case Forget(s, i) => if (s, i) in x.loaded then Forgotten(x, s, i) else x
    case Discover(s, i, sid, eligible) =>
      if !CanDiscover(x, i, sid) then x
      else
        x.(stored := x.stored[i := Stored(None, None, None, false, None, false)],
           loaded := x.loaded[(s, i) := Loaded(NewRow(sid, x.env.sources[sid], eligible), None, Idle, false)])
    case Act(s, step) => Acted(h, x, s, step)
    case Around(o) =>
      if o.Crash? then
        x.(stored := map i | i in x.stored && x.stored[i].db.Some? :: x.stored[i], loaded := map[])
      else if o.DiscoverNew? then x
      else x.(env := OutsideWorld(World(x.env, map[], []), o).env)
  }

  function RunShared(h: Hash, x: Shared, events: seq<SharedEvent>): Shared {
    if events == [] then x else StepShared(h, RunShared(h, x, events[..|events| - 1]), events[|events| - 1])
  }

  // ----- One session per item: the single-row machine -----

  /** A row is loaded only while no other session has it. */
  ghost predicate OneAtATime(x: Shared, e: SharedEvent) {
    e.Load? ==> forall t :: t != e.s ==> (t, e.i) !in x.loaded
  }

  ghost predicate AlwaysOneAtATime(h: Hash, x: Shared, events: seq<SharedEvent>) {
    events == []
    || (AlwaysOneAtATime(h, x, events[..|events| - 1])
        && OneAtATime(RunShared(h, x, events[..|events| - 1]), events[|events| - 1]))
  }

  /** No two sessions have a row, every copy agrees with the table on what was saved, and an unsaved row has its
      session. */
  ghost predicate OneSessionEach(x: Shared) {
    && (forall s, t, i :: (s, i) in x.loaded && (t, i) in x.loaded ==> s == t)
    && (forall s, i :: (s, i) in x.loaded ==> i in x.stored && x.loaded[(s, i)].base == x.stored[i].db)
    && (forall i :: i in x.stored ==> x.stored[i].db.Some? || InSession(x, i))
  }

  ghost predicate InSession(x: Shared, i: ItemId) {
    exists s :: (s, i) in x.loaded
  }

  /** The item of the single-row machine: the copy of the one session that has it, or the table's row. */
  ghost function AbstractItem(x: Shared, i: ItemId): Item
    requires i in x.stored && (x.stored[i].db.Some? || InSession(x, i))
  {
    if InSession(x, i) then
      var s :| (s, i) in x.loaded;
      Seen(x.stored[i], x.loaded[(s, i)])
    else Seen(x.stored[i], Loaded(x.stored[i].db.value, x.stored[i].db, Idle, false))
  }

  ghost function Abstract(x: Shared): World {
    World(x.env, map i | i in x.stored && (x.stored[i].db.Some? || InSession(x, i)) :: AbstractItem(x, i), x.log)
  }

  /** The steps of the single-row machine that an event stands for. */
  function Project(x: Shared, e: SharedEvent): seq<Event> {
    match e
    case Load(_, _) => []
    case Forget(s, i) => if (s, i) in x.loaded then [Rollback(i)] else []
    case Discover(_, i, sid, eligible) =>
      if CanDiscover(x, i, sid) then [Outside(DiscoverNew(i, sid, eligible))] else []
    case Act(s, step) => if step.Outside? || (s, step.i) !in x.loaded then [] else [step]
    case Around(o) => if o.DiscoverNew? then [] else [Outside(o)]
  }

  function ProjectRun(h: Hash, x: Shared, events: seq<SharedEvent>): seq<Event> {
    if events == [] then []
    else ProjectRun(h, x, events[..|events| - 1]) + Project(RunShared(h, x, events[..|events| - 1]), events[|events| - 1])
  }

  // ----- The refinement -----

  lemma OwnedItem(x: Shared, s: SessionId, i: ItemId)
    requires OneSessionEach(x) && (s, i) in x.loaded
    ensures i in Abstract(x).items && Abstract(x).items[i] == Seen(x.stored[i], x.loaded[(s, i)])
    ensures Abstract(x).items[i].db == x.stored[i].db
  {
    assert InSession(x, i);
  }

  /** An item step looks at that item alone. */
  lemma StepIsLocal(h: Hash, w: World, e: Event)
    requires !e.Outside? && e.i in w.items
    ensures var w1 := Step(h, World(w.env, map[e.i := w.items[e.i]], w.log), e);
            var w' := Step(h, w, e);
            && w'.env == w1.env && w'.log == w1.log
            && w'.items == if e.i in w1.items then w.items[e.i := w1.items[e.i]] else w.items - {e.i}
  {
    hide StageItem, ProtectItem, SettleItem, GateSaysYes, CanAdopt, CanCommitFile, CommitTarget, CommittedActive,
         SourceMatches, CanReachDeleting;
  }

  /** A saved row stays saved, and the item goes only when the step rolls back. */
  lemma SavedStaysSaved(h: Hash, w: World, e: Event)
    requires !e.Outside? && e.i in w.items
    ensures var w' := Step(h, w, e);
            && (w.items[e.i].db.Some? ==> e.i in w'.items && w'.items[e.i].db.Some?)
            && (!RollsBack(w.env, w.items[e.i], e) ==> e.i in w'.items)
            && (RollsBack(w.env, w.items[e.i], e) ==> w' == RollbackItem(w, e.i))
  {
    hide GateSaysYes, CanAdopt, CanCommitFile, CommitTarget, CommittedActive, SourceMatches, CanReachDeleting;
    if e.Stage? {
      StageSaves(h, w.env, w.items[e.i], e.stage);
    } else if e.Protect? {
      ProtectSaves(h, w.env.active, e.i, w.items[e.i], e.protect);
    } else {
      hide StageItem, ProtectItem;
    }
  }

  lemma StageSaves(h: Hash, env: Env, it: Item, s: StageStep)
    ensures it.db.Some? ==> StageItem(h, env, it, s).db.Some?
  {
  }

  lemma ProtectSaves(h: Hash, active: map<Path, Bytes>, i: ItemId, it: Item, p: ProtectStep)
    ensures it.db.Some? ==> ProtectItem(h, active, i, it, p).db.Some?
  {
  }

  lemma MergeWithoutOthers(base: Option<Row>, mine: Option<Row>)
    requires base.Some? ==> mine.Some?
    ensures Merge(base, base, mine) == mine
  {
  }

  /** The two states differ in one item at most. */
  ghost predicate SameApartFrom(x: Shared, x': Shared, i: ItemId) {
    && (forall j :: j != i ==> (j in x.stored <==> j in x'.stored))
    && (forall j :: j != i && j in x.stored ==> x'.stored[j] == x.stored[j])
    && (forall t, j :: j != i ==> ((t, j) in x.loaded <==> (t, j) in x'.loaded))
    && (forall t, j :: j != i && (t, j) in x.loaded ==> x'.loaded[(t, j)] == x.loaded[(t, j)])
  }

  lemma SameItem(x: Shared, x': Shared, i: ItemId, j: ItemId)
    requires OneSessionEach(x) && OneSessionEach(x') && SameApartFrom(x, x', i) && j != i && j in x.stored
    ensures j in Abstract(x').items && j in Abstract(x).items && Abstract(x').items[j] == Abstract(x).items[j]
  {
    if t :| (t, j) in x.loaded {
      OwnedItem(x, t, j);
      OwnedItem(x', t, j);
    } else {
      assert !InSession(x, j) && !InSession(x', j);
    }
  }

  lemma AbstractUpdate(x: Shared, x': Shared, i: ItemId)
    requires OneSessionEach(x) && OneSessionEach(x') && SameApartFrom(x, x', i)
    ensures i in x'.stored ==>
      i in Abstract(x').items && Abstract(x').items == Abstract(x).items[i := Abstract(x').items[i]]
    ensures i !in x'.stored ==> Abstract(x').items == Abstract(x).items - {i}
  {
    AllVisible(x);
    AllVisible(x');
    hide OneSessionEach, Abstract, AbstractItem;
    forall j | j != i && j in x.stored ensures j in x'.stored && Abstract(x').items[j] == Abstract(x).items[j] {
      SameItem(x, x', i, j);
    }
  }

  lemma AllVisible(x: Shared)
    requires OneSessionEach(x)
    ensures Abstract(x).items.Keys == x.stored.Keys
  {
  }

  lemma ForgetRefines(h: Hash, x: Shared, s: SessionId, i: ItemId)
    requires OneSessionEach(x) && (s, i) in x.loaded
    ensures OneSessionEach(Forgotten(x, s, i)) && i in Abstract(x).items
    ensures Abstract(Forgotten(x, s, i)) == RollbackItem(Abstract(x), i)
  {
    var x' := Forgotten(x, s, i);
    OwnedItem(x, s, i);
    assert OneSessionEach(x') by { ForgetKeepsOne(x, s, i); }
    assert !InSession(x', i);
    AbstractUpdate(x, x', i);
  }

  lemma ForgetKeepsOne(x: Shared, s: SessionId, i: ItemId)
    requires OneSessionEach(x) && (s, i) in x.loaded
    ensures OneSessionEach(Forgotten(x, s, i)) && SameApartFrom(x, Forgotten(x, s, i), i)
  {
    var x' := Forgotten(x, s, i);
    forall j | j in x'.stored ensures x'.stored[j].db.Some? || InSession(x', j) {
      if x.stored[j].db.None? {
        var t :| (t, j) in x.loaded;
        assert (t, j) in x'.loaded;
      }
    }
  }

  lemma ActKeepsOne(x: Shared, s: SessionId, i: ItemId, x': Shared)
    requires OneSessionEach(x) && (s, i) in x.loaded
    requires x'.loaded.Keys == x.loaded.Keys && x'.stored.Keys == x.stored.Keys && SameApartFrom(x, x', i)
    requires x'.loaded[(s, i)].base == x'.stored[i].db
    ensures OneSessionEach(x')
  {
    forall j | j in x'.stored ensures x'.stored[j].db.Some? || InSession(x', j) {
      if j == i {
        assert (s, j) in x'.loaded;
      } else if t :| (t, j) in x.loaded {
        assert (t, j) in x'.loaded;
      }
    }
  }

  lemma ActRefines(h: Hash, x: Shared, s: SessionId, e: Event)
    requires OneSessionEach(x) && !e.Outside? && (s, e.i) in x.loaded
    ensures OneSessionEach(Acted(h, x, s, e)) && e.i in Abstract(x).items
    ensures Abstract(Acted(h, x, s, e)) == Step(h, Abstract(x), e)
  {
    hide Step, RollsBack, Merge, AbstractItem, OneSessionEach, SameApartFrom;
    assert e.i in x.stored && x.loaded[(s, e.i)].base == x.stored[e.i].db by { Loads(x, s, e.i); }
    OwnedItem(x, s, e.i);
    var w := Abstract(x);
    var it := Seen(x.stored[e.i], x.loaded[(s, e.i)]);
    StepIsLocal(h, w, e);
    SavedStaysSaved(h, w, e);
    SavedStaysSaved(h, World(x.env, map[e.i := it], x.log), e);
    var x' := Acted(h, x, s, e);
    if RollsBack(x.env, it, e) {
      ForgetRefines(h, x, s, e.i);
    } else {
      var w1 := Step(h, World(x.env, map[e.i := it], x.log), e);
      MergeWithoutOthers(it.db, w1.items[e.i].db);
      assert SameApartFrom(x, x', e.i) by { UpdatedAt(x, x', s, e.i); }
      ActKeepsOne(x, s, e.i, x');
      OwnedItem(x', s, e.i);
      AbstractUpdate(x, x', e.i);
    }
  }

  lemma Loads(x: Shared, s: SessionId, i: ItemId)
    requires OneSessionEach(x) && (s, i) in x.loaded
    ensures i in x.stored && x.loaded[(s, i)].base == x.stored[i].db
  {
  }

  lemma UpdatedAt(x: Shared, x': Shared, s: SessionId, i: ItemId)
    requires i in x'.stored && x'.stored == x.stored[i := x'.stored[i]]
    requires (s, i) in x'.loaded && x'.loaded == x.loaded[(s, i) := x'.loaded[(s, i)]]
    ensures SameApartFrom(x, x', i)
  {
  }

  lemma LoadRefines(h: Hash, x: Shared, s: SessionId, i: ItemId)
    requires OneSessionEach(x) && OneAtATime(x, Load(s, i))
    ensures OneSessionEach(StepShared(h, x, Load(s, i))) && Abstract(StepShared(h, x, Load(s, i))) == Abstract(x)
  {
    var x' := StepShared(h, x, Load(s, i));
    if x' != x {
      assert !InSession(x, i);
      assert OneSessionEach(x') by { LoadKeepsOne(x, s, i, x'); }
      OwnedItem(x', s, i);
      assert SameApartFrom(x, x', i);
      AbstractUpdate(x, x', i);
    }
  }

  lemma LoadKeepsOne(x: Shared, s: SessionId, i: ItemId, x': Shared)
    requires OneSessionEach(x) && !InSession(x, i) && i in x'.stored
    requires x'.stored == x.stored[i := x'.stored[i]]
    requires (s, i) in x'.loaded && x'.loaded == x.loaded[(s, i) := x'.loaded[(s, i)]]
    requires x'.loaded[(s, i)].base == x'.stored[i].db
    ensures OneSessionEach(x')
  {
    assert forall t :: (t, i) !in x.loaded;
    forall j | j in x'.stored ensures x'.stored[j].db.Some? || InSession(x', j) {
      if j == i {
        assert (s, j) in x'.loaded;
      } else if x.stored[j].db.None? {
        var t :| (t, j) in x.loaded;
        assert (t, j) in x'.loaded;
      }
    }
  }

  lemma DiscoverRefines(h: Hash, x: Shared, e: SharedEvent)
    requires OneSessionEach(x) && e.Discover? && CanDiscover(x, e.i, e.sid)
    ensures OneSessionEach(StepShared(h, x, e))
    ensures Abstract(StepShared(h, x, e)) == OutsideWorld(Abstract(x), DiscoverNew(e.i, e.sid, e.eligible))
  {
    var x' := StepShared(h, x, e);
    assert !InSession(x, e.i) by { Stranger(x, e.i); }
    assert OneSessionEach(x') by { LoadKeepsOne(x, e.s, e.i, x'); }
    OwnedItem(x', e.s, e.i);
    assert SameApartFrom(x, x', e.i) by { UpdatedAt(x, x', e.s, e.i); }
    AbstractUpdate(x, x', e.i);
    NoAbstractSource(x, e.sid);
  }

  lemma Stranger(x: Shared, i: ItemId)
    requires OneSessionEach(x) && i !in x.stored
    ensures !InSession(x, i)
  {
  }

  lemma NoAbstractSource(x: Shared, sid: SourceId)
    requires OneSessionEach(x) && !HasSource(x, sid)
    ensures !exists j :: j in Abstract(x).items && Abstract(x).items[j].mem.sourceId == sid
  {
    forall j | j in Abstract(x).items ensures Abstract(x).items[j].mem.sourceId != sid {
      if t :| (t, j) in x.loaded {
        OwnedItem(x, t, j);
      } else {
        assert !InSession(x, j);
      }
    }
  }

  lemma CrashKeepsOne(h: Hash, x: Shared)
    ensures OneSessionEach(StepShared(h, x, Around(Crash)))
  {
  }

  lemma CrashedItem(h: Hash, x: Shared, j: ItemId)
    requires OneSessionEach(x) && j in x.stored
    ensures j in Abstract(x).items && Abstract(x).items[j].db == x.stored[j].db
    ensures var x' := StepShared(h, x, Around(Crash));
            x.stored[j].db.Some? ==> j in Abstract(x').items && Abstract(x').items[j] == Reloaded(Abstract(x).items[j])
  {
    assert !InSession(StepShared(h, x, Around(Crash)), j);
    if t :| (t, j) in x.loaded {
      OwnedItem(x, t, j);
    } else {
      assert !InSession(x, j);
    }
  }

  lemma CrashRefines(h: Hash, x: Shared)
    requires OneSessionEach(x)
    ensures var x' := StepShared(h, x, Around(Crash));
            OneSessionEach(x') && Abstract(x') == OutsideWorld(Abstract(x), Crash)
  {
    hide OneSessionEach, AbstractItem, Reloaded;
    var x' := StepShared(h, x, Around(Crash));
    CrashKeepsOne(h, x);
    AllVisible(x);
    AllVisible(x');
    forall j | j in x.stored
      ensures j in Abstract(x).items && Abstract(x).items[j].db == x.stored[j].db
      ensures x.stored[j].db.Some? ==> j in Abstract(x').items && Abstract(x').items[j] == Reloaded(Abstract(x).items[j])
    {
      CrashedItem(h, x, j);
    }
    assert Abstract(x').items == OutsideWorld(Abstract(x), Crash).items;
  }

  lemma EditRefines(h: Hash, x: Shared, o: OutsideStep)
    requires OneSessionEach(x) && (o.SourceWrite? || o.SourceRemove? || o.Import?)
    ensures var x' := StepShared(h, x, Around(o));
            OneSessionEach(x') && Abstract(x') == OutsideWorld(Abstract(x), o)
  {
    hide SourceWritten, SourceRemoved;
    var x' := StepShared(h, x, Around(o));
    forall j | j in x.stored
      ensures j in Abstract(x).items && j in Abstract(x').items && Abstract(x').items[j] == Abstract(x).items[j]
    {
      if t :| (t, j) in x.loaded {
        OwnedItem(x, t, j);
        OwnedItem(x', t, j);
      } else {
        assert !InSession(x, j) && !InSession(x', j);
      }
    }
    assert Abstract(x').items == Abstract(x).items;
  }

  lemma OneStep(h: Hash, w: World, e: Event)
    ensures Run(h, w, [e]) == Step(h, w, e) && Run(h, w, []) == w
  {
    RunAppend(h, w, [], e);
    assert [] + [e] == [e];
  }

  lemma StepRefines(h: Hash, x: Shared, e: SharedEvent)
    requires OneSessionEach(x) && OneAtATime(x, e)
    ensures OneSessionEach(StepShared(h, x, e))
    ensures Abstract(StepShared(h, x, e)) == Run(h, Abstract(x), Project(x, e))
  {
    hide Run, OneSessionEach, Abstract, Acted, CanDiscover, NewRow, RollbackItem, OutsideWorld, Forgotten;
    match e
    case Load(s, i) => LoadRefines(h, x, s, i); OneStep(h, Abstract(x), Rollback(i));
    case Forget(s, i) =>
      OneStep(h, Abstract(x), Rollback(i));
      if (s, i) in x.loaded {
        ForgetRefines(h, x, s, i);
      }
    case Discover(s, i, sid, eligible) =>
      OneStep(h, Abstract(x), Outside(DiscoverNew(i, sid, eligible)));
      if CanDiscover(x, i, sid) {
        DiscoverRefines(h, x, e);
      }
    case Act(s, step) =>
      OneStep(h, Abstract(x), step);
      if !step.Outside? && (s, step.i) in x.loaded {
        ActRefines(h, x, s, step);
      } else {
        assert Acted(h, x, s, step) == x by { NothingToActOn(h, x, s, step); }
      }
    case Around(o) =>
      OneStep(h, Abstract(x), Outside(o));
      if o.Crash? {
        CrashRefines(h, x);
      } else if !o.DiscoverNew? {
        EditRefines(h, x, o);
      }
  }

  lemma NothingToActOn(h: Hash, x: Shared, s: SessionId, e: Event)
    requires e.Outside? || (s, e.i) !in x.loaded
    ensures Acted(h, x, s, e) == x
  {
  }

  /** Refinement: as long as a row is loaded only while no other session has it, every run of any number of
      sessions is a run of the single-row machine. */
  lemma {:induction false} SessionsRefine(h: Hash, x: Shared, events: seq<SharedEvent>)
    requires OneSessionEach(x) && AlwaysOneAtATime(h, x, events)
    ensures OneSessionEach(RunShared(h, x, events))
    ensures Abstract(RunShared(h, x, events)) == Run(h, Abstract(x), ProjectRun(h, x, events))
  {
    hide Abstract, Project, StepShared, OneSessionEach, OneAtATime;
    if events == [] {
    } else {
      var earlier, e := events[..|events| - 1], events[|events| - 1];
      SessionsRefine(h, x, earlier);
      var now := RunShared(h, x, earlier);
      StepRefines(h, now, e);
      RunConcat(h, Abstract(x), ProjectRun(h, x, earlier), Project(now, e));
    }
  }

  lemma StartsApart()
    ensures OneSessionEach(NO_SESSIONS) && Abstract(NO_SESSIONS) == EMPTY_WORLD
  {
    assert Abstract(NO_SESSIONS).items == map[];
  }

  // ----- What that gives -----

  /** The checkpoint invariant over every run of any number of sessions that never share a row. */
  lemma CheckpointsHoldAcrossSessions(h: Hash, events: seq<SharedEvent>)
    requires AlwaysOneAtATime(h, NO_SESSIONS, events)
    requires NothingOverwritten(h, EMPTY_WORLD, ProjectRun(h, NO_SESSIONS, events))
    ensures OneSessionEach(RunShared(h, NO_SESSIONS, events)) && Inv(h, Abstract(RunShared(h, NO_SESSIONS, events)))
  {
    hide Inv, Run, RunShared, NothingOverwritten, AlwaysOneAtATime;
    StartsApart();
    SessionsRefine(h, NO_SESSIONS, events);
    CheckpointsHold(h, ProjectRun(h, NO_SESSIONS, events));
  }

  /** Bytes of this hash are in the active file, the backup snapshot and the cold object. */
  predicate StoresHold(h: Hash, x: Shared, i: ItemId, p: Path, d: Digest) {
    && Held(h, x.env.active, p, d)
    && i in x.stored
    && x.stored[i].snapshot.Some? && h(x.stored[i].snapshot.value) == d
    && x.stored[i].coldCopy.Some? && h(x.stored[i].coldCopy.value) == d
  }

  lemma StoresHoldIs(h: Hash, x: Shared, i: ItemId, p: Path, d: Digest)
    requires OneSessionEach(x)
    ensures StoresHold(h, x, i, p, d) <==> HeldThreeTimes(h, Abstract(x), i, p, d)
  {
    AllVisible(x);
    if i in x.stored {
      if t :| (t, i) in x.loaded {
        OwnedItem(x, t, i);
      } else {
        assert !InSession(x, i);
      }
    }
  }

  /** Never delete the last copy, over every run of sessions that never share a row: what a step other than the
      user's own removal takes off the source is held three times, then and later, exactly when it hashes to the
      recorded digest, and so it does whenever the object shows the recorded version as it is unlinked. */
  lemma SessionsNeverDeleteTheLastCopy(h: Hash, before: seq<SharedEvent>, e: SharedEvent, sid: SourceId,
                                       after: seq<SharedEvent>)
    requires AlwaysOneAtATime(h, NO_SESSIONS, before)
    requires NothingOverwritten(h, EMPTY_WORLD, ProjectRun(h, NO_SESSIONS, before))
    requires var x := RunShared(h, NO_SESSIONS, before);
             && OneAtATime(x, e) && AlwaysOneAtATime(h, StepShared(h, x, e), after)
             && NothingOverwritten(h, Abstract(StepShared(h, x, e)), ProjectRun(h, StepShared(h, x, e), after))
             && sid in x.env.sources && sid !in StepShared(h, x, e).env.sources
             && e != Around(SourceRemove(sid))
    ensures var x := RunShared(h, NO_SESSIONS, before);
            var later := RunShared(h, StepShared(h, x, e), after);
            var bytes := x.env.sources[sid].content;
            && e.Act? && e.e.DeleteCall? && (e.s, e.e.i) in x.loaded && e.e.i in x.stored
            && var r := x.loaded[(e.s, e.e.i)].mem;
            && r.state == DELETING && x.stored[e.e.i].db == Some(r)
            && r.sourceId == sid && r.sha.Some? && r.nasPath.Some?
            && (StoresHold(h, later, e.e.i, r.nasPath.value, h(bytes)) <==> r.sha.value == h(bytes))
            && (x.env.sources[sid].version == r.sourceVersion ==> r.sha.value == h(bytes))
  {
    hide Run, RunShared, StepShared, Step, NothingOverwritten, AlwaysOneAtATime, OneSessionEach, HeldThreeTimes,
         StoresHold, AbstractItem;
    StartsApart();
    SessionsRefine(h, NO_SESSIONS, before);
    var x := RunShared(h, NO_SESSIONS, before);
    StepRefines(h, x, e);
    var x1 := StepShared(h, x, e);
    SessionsRefine(h, x1, after);
    OneStep(h, Abstract(x), Outside(Crash));
    var p := Project(x, e)[0];
    assert Project(x, e) == [p];
    OneStep(h, Abstract(x), p);
    NeverDeleteTheLastCopy(h, ProjectRun(h, NO_SESSIONS, before), p, sid, ProjectRun(h, x1, after));
    assert e.Act? && p == e.e;
    OwnedItem(x, e.s, p.i);
    Loads(x, e.s, p.i);
    var r := x.loaded[(e.s, p.i)].mem;
    StoresHoldIs(h, RunShared(h, x1, after), p.i, r.nasPath.value, h(x.env.sources[sid].content));
  }
}
