/** Two sessions with one row: the run after which Mnema deletes bytes that no store holds. */
module ArchiveOverlap {
  import opened Basics
  import opened States
  import opened Gate
  import opened Archive
  import opened ArchiveSafety
  import opened ArchiveStale
  import opened ArchiveSessions

  lemma OneMore(h: Hash, x: Shared, events: seq<SharedEvent>, e: SharedEvent) returns (events': seq<SharedEvent>)
    ensures events' == events + [e] && RunShared(h, x, events') == StepShared(h, RunShared(h, x, events), e)
  {
    events' := events + [e];
    assert events'[..|events|] == events;
  }

  lemma {:induction false} SharedConcat(h: Hash, x: Shared, first: seq<SharedEvent>, second: seq<SharedEvent>)
    ensures RunShared(h, x, first + second) == RunShared(h, RunShared(h, x, first), second)
  {
    hide StepShared;
    if second == [] {
      assert first + second == first;
    } else {
      assert (first + second)[..|first + second| - 1] == first + second[..|second| - 1];
      SharedConcat(h, x, first, second[..|second| - 1]);
    }
  }

  /** A step of a session that changes nothing but its copy of a row. */
  lemma CopyChanges(h: Hash, x: Shared, s: SessionId, e: Event, r': Row, work: Work, decision: bool)
    requires !e.Outside? && (s, e.i) in x.loaded && e.i in x.stored
    requires var it := Seen(x.stored[e.i], x.loaded[(s, e.i)]);
             && !RollsBack(x.env, it, e) && x.loaded[(s, e.i)].base.Some? && x.stored[e.i].db.Some?
             && Step(h, World(x.env, map[e.i := it], x.log), e)
                == World(x.env, map[e.i := it.(mem := r', work := work, decision := decision)], x.log)
    ensures StepShared(h, x, Act(s, e)) ==
            x.(loaded := x.loaded[(s, e.i) := Loaded(r', x.loaded[(s, e.i)].base, work, decision)])
  {
    hide Step, RollsBack;
    var st := x.stored[e.i];
    assert MergeRow(st.db.value, x.loaded[(s, e.i)].base.value, x.loaded[(s, e.i)].base.value) == st.db.value;
    assert x.stored[e.i := st] == x.stored;
  }

  /** A step of a session that saves its copy of a row. */
  lemma RowSaved(h: Hash, x: Shared, s: SessionId, e: Event, r': Row, work: Work, merged: Row)
    requires !e.Outside? && (s, e.i) in x.loaded && e.i in x.stored
    requires var it := Seen(x.stored[e.i], x.loaded[(s, e.i)]);
             && !RollsBack(x.env, it, e) && x.loaded[(s, e.i)].base.Some? && x.stored[e.i].db.Some?
             && MergeRow(x.stored[e.i].db.value, x.loaded[(s, e.i)].base.value, r') == merged
             && Step(h, World(x.env, map[e.i := it], x.log), e)
                == World(x.env, map[e.i := it.(mem := r', db := Some(r'), work := work)], x.log)
    ensures StepShared(h, x, Act(s, e)) ==
            x.(stored := x.stored[e.i := x.stored[e.i].(db := Some(merged))],
               loaded := x.loaded[(s, e.i) := Loaded(r', Some(r'), work, x.loaded[(s, e.i)].decision)])
  {
    hide Step, RollsBack, MergeRow;
  }

  // ----- A second session discovers the replaced object -----

  /** The row after another session discovered the replaced source object. */
  function ChangedRow(r: Row, obj: SourceObject): Row {
    r.(state := SourceChanged, originalModified := obj.modified, sourceVersion := obj.version)
  }

  lemma DiscoverStep(h: Hash, x: Shared, b: SessionId, i: ItemId, r: Row, obj: SourceObject)
    requires i in x.stored && x.stored[i].db == Some(r)
    requires (b, i) in x.loaded && x.loaded[(b, i)] == Loaded(r, Some(r), Idle, false)
    requires r.sourceId in x.env.sources && x.env.sources[r.sourceId] == obj
    requires obj.version != r.sourceVersion && obj.path == r.originalPath && |obj.content| == r.originalSize
    ensures StepShared(h, x, Act(b, Stage(i, DiscoverKnown(true)))) ==
            x.(loaded := x.loaded[(b, i) := Loaded(ChangedRow(r, obj), Some(r), Idle, false)])
  {
    hide StepShared;
    assert Rediscovered(r, obj, true) == ChangedRow(r, obj);
    CopyChanges(h, x, b, Stage(i, DiscoverKnown(true)), ChangedRow(r, obj), Idle, false);
  }

  lemma CommitStep(h: Hash, x: Shared, b: SessionId, i: ItemId, r: Row, r': Row)
    requires i in x.stored && x.stored[i].db == Some(r)
    requires (b, i) in x.loaded && x.loaded[(b, i)] == Loaded(r', Some(r), Idle, false)
    ensures StepShared(h, x, Act(b, Settle(i, Commit))) ==
            x.(stored := x.stored[i := x.stored[i].(db := Some(r'))],
               loaded := x.loaded[(b, i) := Loaded(r', Some(r'), Idle, false)])
  {
    hide StepShared;
    RowSaved(h, x, b, Settle(i, Commit), r', Idle, r');
  }

  lemma EditStep(h: Hash, x: Shared, sid: SourceId, obj: SourceObject)
    ensures StepShared(h, x, Around(SourceWrite(sid, obj))) == x.(env := SourceWritten(x.env, sid, obj))
  {
    hide SourceWritten;
  }

  lemma LoadStep(h: Hash, x: Shared, b: SessionId, i: ItemId, r: Row)
    requires i in x.stored && x.stored[i].db == Some(r) && (b, i) !in x.loaded
    ensures StepShared(h, x, Load(b, i)) == x.(loaded := x.loaded[(b, i) := Loaded(r, Some(r), Idle, false)])
  {
  }

  lemma EditAndLoad(h: Hash, x: Shared, b: SessionId, i: ItemId, r: Row, obj: SourceObject)
      returns (events: seq<SharedEvent>)
    requires i in x.stored && x.stored[i].db == Some(r) && (b, i) !in x.loaded
    ensures RunShared(h, x, events) ==
            x.(env := SourceWritten(x.env, r.sourceId, obj), loaded := x.loaded[(b, i) := Loaded(r, Some(r), Idle, false)])
  {
    assert RunShared(h, x, []) == x;
    hide RunShared, StepShared, SourceWritten;
    EditStep(h, x, r.sourceId, obj);
    events := OneMore(h, x, [], Around(SourceWrite(r.sourceId, obj)));
    LoadStep(h, x.(env := SourceWritten(x.env, r.sourceId, obj)), b, i, r);
    events := OneMore(h, x, events, Load(b, i));
  }

  /** The user replaces the source object by another of the same size, and a second session discovers it. */
  lemma DiscoveredElsewhere(h: Hash, x: Shared, b: SessionId, i: ItemId, r: Row, obj: SourceObject)
      returns (events: seq<SharedEvent>)
    requires i in x.stored && x.stored[i].db == Some(r) && (b, i) !in x.loaded
    requires r.sourceId.Separate? && (r.sourceId, obj.version) !in x.env.seen && obj.version != r.sourceVersion
    requires obj.path == r.originalPath && |obj.content| == r.originalSize
    ensures RunShared(h, x, events) ==
            x.(env := SourceWritten(x.env, r.sourceId, obj),
               stored := x.stored[i := x.stored[i].(db := Some(ChangedRow(r, obj)))])
  {
    var env', r' := SourceWritten(x.env, r.sourceId, obj), ChangedRow(r, obj);
    assert r.sourceId in env'.sources && env'.sources[r.sourceId] == obj;
    hide RunShared, StepShared, ChangedRow, SourceWritten;
    var l, l', l'' := Loaded(r, Some(r), Idle, false), Loaded(r', Some(r), Idle, false), Loaded(r', Some(r'), Idle, false);
    events := EditAndLoad(h, x, b, i, r, obj);
    var x2 := x.(env := env', loaded := x.loaded[(b, i) := l]);
    DiscoverStep(h, x2, b, i, r, obj);
    events := OneMore(h, x, events, Act(b, Stage(i, DiscoverKnown(true))));
    LastUpdate(x.loaded, (b, i), l, l');
    CommitStep(h, x.(env := env', loaded := x.loaded[(b, i) := l']), b, i, r, r');
    events := OneMore(h, x, events, Act(b, Settle(i, Commit)));
    events := OneMore(h, x, events, Forget(b, i));
    Dropped(h, x, b, i, env', r', l', l'');
  }

  lemma LastUpdate<K, V>(m: map<K, V>, k: K, a: V, b: V)
    ensures m[k := a][k := b] == m[k := b]
  {
  }

  lemma Dropped(h: Hash, x: Shared, b: SessionId, i: ItemId, env: Env, r: Row, l: Loaded, l': Loaded)
    requires i in x.stored && (b, i) !in x.loaded
    ensures var stored := x.stored[i := x.stored[i].(db := Some(r))];
            StepShared(h, x.(env := env, stored := stored, loaded := x.loaded[(b, i) := l][(b, i) := l']), Forget(b, i))
            == x.(env := env, stored := stored)
  {
    assert x.loaded[(b, i) := l][(b, i) := l'] - {(b, i)} == x.loaded;
  }

  // ----- The first session commits its stale row -----

  function QuarantinedRow(r: Row, until: int): Row {
    r.(state := QUARANTINED, quarantineExpiresAt := Some(until))
  }

  /** The first session still has the row of the old object. Its commit writes the state and the quarantine and
      leaves the new source version in the table. */
  lemma StaleCommit(h: Hash, x: Shared, a: SessionId, i: ItemId, r: Row, obj: SourceObject, until: int)
      returns (events: seq<SharedEvent>)
    requires i in x.stored && x.stored[i].db == Some(ChangedRow(r, obj))
    requires (a, i) in x.loaded && x.loaded[(a, i)].mem == r && x.loaded[(a, i)].base == Some(r)
    requires x.loaded[(a, i)].work.Idle? && r.state == COLD_ARCHIVED
    ensures RunShared(h, x, events) ==
            x.(stored := x.stored[i := x.stored[i].(db := Some(QuarantinedRow(ChangedRow(r, obj), until)))],
               loaded := x.loaded - {(a, i)})
  {
    assert RunShared(h, x, []) == x;
    hide RunShared, StepShared, Step;
    var r', merged := QuarantinedRow(r, until), QuarantinedRow(ChangedRow(r, obj), until);
    assert MergeRow(ChangedRow(r, obj), r, r') == merged;
    QuarantineStep(h, x, a, i, r, until);
    RowSaved(h, x, a, Protect(i, Quarantine(until)), r', Idle, merged);
    events := OneMore(h, x, [], Act(a, Protect(i, Quarantine(until))));
    events := OneMore(h, x, events, Forget(a, i));
    ForgetSaved(h, x, a, i, merged, Loaded(r', Some(r'), Idle, x.loaded[(a, i)].decision));
  }

  lemma QuarantineStep(h: Hash, x: Shared, a: SessionId, i: ItemId, r: Row, until: int)
    requires i in x.stored && (a, i) in x.loaded && x.loaded[(a, i)].mem == r
    requires x.loaded[(a, i)].work.Idle? && r.state == COLD_ARCHIVED
    ensures var it := Seen(x.stored[i], x.loaded[(a, i)]);
            var r' := QuarantinedRow(r, until);
            Step(h, World(x.env, map[i := it], x.log), Protect(i, Quarantine(until)))
            == World(x.env, map[i := it.(mem := r', db := Some(r'), work := Idle)], x.log)
  {
    var it := Seen(x.stored[i], x.loaded[(a, i)]);
    assert At(it, COLD_ARCHIVED);
  }

  lemma ForgetSaved(h: Hash, x: Shared, a: SessionId, i: ItemId, r: Row, l: Loaded)
    requires i in x.stored
    ensures var stored := x.stored[i := x.stored[i].(db := Some(r))];
            StepShared(h, x.(stored := stored, loaded := x.loaded[(a, i) := l]), Forget(a, i))
            == x.(stored := stored, loaded := x.loaded - {(a, i)})
  {
    assert x.loaded[(a, i) := l] - {(a, i)} == x.loaded - {(a, i)};
  }

  // ----- The deletion goes through -----

  /** Any session that loads the row now finds the source unchanged and the gate open, and deletes. */
  lemma DeletionGoesThrough(h: Hash, x: Shared, b: SessionId, i: ItemId, q: Row) returns (events: seq<SharedEvent>)
    requires i in x.stored && x.stored[i].db == Some(q) && (b, i) !in x.loaded
    requires q.state == QUARANTINED && q.sourceId.Separate? && q.sha.Some? && q.nasPath.Some?
    requires q.sourceId in x.env.sources && SourceMatches(q, x.env.sources[q.sourceId])
    requires GateSaysYes(h, x.env, q, CALM)
    ensures var x' := RunShared(h, x, events);
            && x'.env == x.env.(sources := x.env.sources - {q.sourceId})
            && x'.stored == x.stored[i := x.stored[i].(db := Some(q.(state := DELETING)))]
            && x'.log == x.log + [Deletion(i, q.nasPath.value, q.sha.value, x.env.sources[q.sourceId].content)]
  {
    assert RunShared(h, x, []) == x;
    hide RunShared, StepShared, GateSaysYes;
    LoadStep(h, x, b, i, q);
    events := OneMore(h, x, [], Load(b, i));
    var x1 := RunShared(h, x, events);
    DecideStep(h, x1, b, i, q);
    events := OneMore(h, x, events, Act(b, Decide(i, CALM)));
    var x2 := x1.(loaded := x1.loaded[(b, i) := Loaded(q, Some(q), Idle, true)]);
    BeginStep(h, x2, b, i, q);
    events := OneMore(h, x, events, Act(b, DeleteBegin(i, true)));
    var q' := q.(state := DELETING);
    var x3 := RunShared(h, x, events);
    CheckStep(h, x3, b, i, q');
    events := OneMore(h, x, events, Act(b, DeleteCheck(i)));
    var x4 := RunShared(h, x, events);
    UnlinkStep(h, x4, b, i, q');
    events := OneMore(h, x, events, Act(b, DeleteCall(i)));
  }

  lemma DecideStep(h: Hash, x: Shared, b: SessionId, i: ItemId, q: Row)
    requires i in x.stored && x.stored[i].db.Some?
    requires (b, i) in x.loaded && x.loaded[(b, i)] == Loaded(q, Some(q), Idle, false)
    requires GateSaysYes(h, x.env, q, CALM)
    ensures StepShared(h, x, Act(b, Decide(i, CALM))) ==
            x.(loaded := x.loaded[(b, i) := Loaded(q, Some(q), Idle, true)])
  {
    hide StepShared, GateSaysYes;
    CopyChanges(h, x, b, Decide(i, CALM), q, Idle, true);
  }

  lemma BeginStep(h: Hash, x: Shared, b: SessionId, i: ItemId, q: Row)
    requires i in x.stored && x.stored[i].db == Some(q)
    requires (b, i) in x.loaded && x.loaded[(b, i)] == Loaded(q, Some(q), Idle, true)
    requires q.state == QUARANTINED && q.sourceId.Separate?
    requires q.sourceId in x.env.sources && SourceMatches(q, x.env.sources[q.sourceId])
    ensures var q' := q.(state := DELETING);
            StepShared(h, x, Act(b, DeleteBegin(i, true))) ==
            x.(stored := x.stored[i := x.stored[i].(db := Some(q'))],
               loaded := x.loaded[(b, i) := Loaded(q', Some(q'), DeleteReady, true)])
  {
    hide StepShared, SourceMatches;
    var q' := q.(state := DELETING);
    RowSaved(h, x, b, DeleteBegin(i, true), q', DeleteReady, q');
  }

  lemma CheckStep(h: Hash, x: Shared, b: SessionId, i: ItemId, q: Row)
    requires i in x.stored && x.stored[i].db == Some(q)
    requires (b, i) in x.loaded && x.loaded[(b, i)] == Loaded(q, Some(q), DeleteReady, true)
    requires q.sourceId in x.env.sources && x.env.sources[q.sourceId].version == q.sourceVersion
    ensures StepShared(h, x, Act(b, DeleteCheck(i))) ==
            x.(loaded := x.loaded[(b, i) := Loaded(q, Some(q), DeleteChecked, true)])
  {
    hide StepShared;
    CopyChanges(h, x, b, DeleteCheck(i), q, DeleteChecked, true);
  }

  lemma UnlinkStep(h: Hash, x: Shared, b: SessionId, i: ItemId, q: Row)
    requires i in x.stored && x.stored[i].db == Some(q)
    requires (b, i) in x.loaded && x.loaded[(b, i)] == Loaded(q, Some(q), DeleteChecked, true)
    requires q.sourceId in x.env.sources && q.sha.Some? && q.nasPath.Some?
    ensures var x' := StepShared(h, x, Act(b, DeleteCall(i)));
            && x'.env == x.env.(sources := x.env.sources - {q.sourceId}) && x'.stored == x.stored
            && x'.log == x.log + [Deletion(i, q.nasPath.value, q.sha.value, x.env.sources[q.sourceId].content)]
  {
    assert MergeRow(q, q, q) == q;
    assert x.stored[i := x.stored[i]] == x.stored;
  }

  // ----- Put together -----

  /** The row is ready to be quarantined, with every receipt of the bytes it was hashed from. */
  predicate ReceiptsInPlace(h: Hash, x: Shared, r: Row) {
    && r.state == COLD_ARCHIVED && r.sourceId.Separate? && r.sha.Some? && r.nasPath.Some?
    && Held(h, x.env.active, r.nasPath.value, r.sha.value)
    && |x.env.active[r.nasPath.value]| == r.originalSize <= 1_000_000_000
    && r.kopiaVerifiedAt.Some? && r.remoteVerifiedAt.Some?
  }

  /** From every state in which session `a` has a cold-archived item loaded: if the user replaces the source
      object by one of the same size and another session discovers it before `a` takes its last step, Mnema
      deletes the new bytes, although the stores hold the old ones. */
  lemma OverlapDeletes(h: Hash, x: Shared, a: SessionId, b: SessionId, i: ItemId, obj: SourceObject, until: int)
      returns (events: seq<SharedEvent>)
    requires i in x.stored && (a, i) in x.loaded && (b, i) !in x.loaded
    requires var r := x.loaded[(a, i)].mem;
             && x.loaded[(a, i)].base == Some(r) == x.stored[i].db && x.loaded[(a, i)].work.Idle?
             && ReceiptsInPlace(h, x, r) && until <= 10
             && (r.sourceId, obj.version) !in x.env.seen && obj.version != r.sourceVersion
             && obj.path == r.originalPath && |obj.content| == r.originalSize
    ensures var r := x.loaded[(a, i)].mem;
            var x' := RunShared(h, x, events);
            && r.sourceId !in x'.env.sources
            && x'.log == x.log + [Deletion(i, r.nasPath.value, r.sha.value, obj.content)]
            && x'.env.active == x.env.active
            && x'.stored.Keys == x.stored.Keys
            && x'.stored[i].snapshot == x.stored[i].snapshot && x'.stored[i].coldCopy == x.stored[i].coldCopy
  {
    var r := x.loaded[(a, i)].mem;
    hide RunShared, StepShared, ChangedRow, QuarantinedRow, Facts;
    events := DiscoveredElsewhere(h, x, b, i, r, obj);
    var x1 := RunShared(h, x, events);
    var stale := StaleCommit(h, x1, a, i, r, obj, until);
    SharedConcat(h, x, events, stale);
    events := events + stale;
    var x2 := RunShared(h, x, events);
    var q := QuarantinedRow(ChangedRow(r, obj), until);
    StaleRowPasses(h, x2.env, r, obj, until);
    var deletion := DeletionGoesThrough(h, x2, b, i, q);
    SharedConcat(h, x, events, deletion);
    events := events + deletion;
  }

  lemma StaleRowPasses(h: Hash, env: Env, r: Row, obj: SourceObject, until: int)
    requires r.sourceId in env.sources && env.sources[r.sourceId] == obj
    requires obj.path == r.originalPath && |obj.content| == r.originalSize <= 1_000_000_000 && until <= 10
    requires r.sha.Some? && r.nasPath.Some? && Held(h, env.active, r.nasPath.value, r.sha.value)
    requires |env.active[r.nasPath.value]| == r.originalSize
    requires r.kopiaVerifiedAt.Some? && r.remoteVerifiedAt.Some?
    ensures var q := QuarantinedRow(ChangedRow(r, obj), until);
            && q.state == QUARANTINED && q.sourceId == r.sourceId && q.sha == r.sha && q.nasPath == r.nasPath
            && SourceMatches(q, obj) && GateSaysYes(h, env, q, CALM)
  {
  }

  // ----- And such a state is reached -----

  /** What session 0 does when it works alone. */
  function Lifted(e: Event): SharedEvent {
    if !e.Outside? then Act(0, e)
    else if e.outside.DiscoverNew? then Discover(0, e.outside.i, e.outside.sid, e.outside.eligible)
    else Around(e.outside)
  }

  function LiftedRun(events: seq<Event>): seq<SharedEvent> {
    if events == [] then [] else LiftedRun(events[..|events| - 1]) + [Lifted(events[|events| - 1])]
  }

  /** A world with one item at most, as session 0 has it. */
  function LiftedWorld(w: World): Shared {
    if 0 in w.items then
      var it := w.items[0];
      Shared(w.env, map[0 := StoredAs(it, it.db)], map[(0, 0) := Loaded(it.mem, it.db, it.work, it.decision)], w.log)
    else Shared(w.env, map[], map[], w.log)
  }

  lemma LiftedStep(h: Hash, w: World, e: Event)
    requires w.items.Keys <= {0} && Solo(e)
    ensures Step(h, w, e).items.Keys <= {0}
    ensures StepShared(h, LiftedWorld(w), Lifted(e)) == LiftedWorld(Step(h, w, e))
  {
    if !e.Outside? {
      LiftedItemStep(h, w, e);
    } else if e.outside.DiscoverNew? {
      hide SourceWritten;
      assert 0 !in w.items ==> w.items == map[];
    } else {
      hide SourceWritten;
    }
  }

  lemma LiftedItemStep(h: Hash, w: World, e: Event)
    requires w.items.Keys <= {0} && Solo(e) && !e.Outside?
    ensures Step(h, w, e).items.Keys <= {0}
    ensures StepShared(h, LiftedWorld(w), Lifted(e)) == LiftedWorld(Step(h, w, e))
  {
    if 0 in w.items {
      SoloStep(h, w, e);
      LiftedActs(h, w, e);
    } else {
      AbsentItem(h, w, e);
      hide Step;
    }
  }

  lemma SoloStep(h: Hash, w: World, e: Event)
    requires w.items.Keys == {0} && Solo(e) && !e.Outside?
    ensures Step(h, w, e).items.Keys == {0} && !RollsBack(w.env, w.items[0], e)
    ensures w == World(w.env, map[0 := w.items[0]], w.log)
    ensures Merge(w.items[0].db, w.items[0].db, Step(h, w, e).items[0].db) == Step(h, w, e).items[0].db
  {
    assert w.items == map[0 := w.items[0]];
    assert !RollsBack(w.env, w.items[0], e);
    hide Step, Merge, RollsBack;
    StepIsLocal(h, w, e);
    SavedStaysSaved(h, w, e);
    MergeWithoutOthers(w.items[0].db, Step(h, w, e).items[0].db);
  }

  lemma LiftedActs(h: Hash, w: World, e: Event)
    requires w.items.Keys == {0} && !e.Outside? && e.i == 0
    requires Step(h, w, e).items.Keys == {0} && !RollsBack(w.env, w.items[0], e)
    requires w == World(w.env, map[0 := w.items[0]], w.log)
    requires Merge(w.items[0].db, w.items[0].db, Step(h, w, e).items[0].db) == Step(h, w, e).items[0].db
    ensures StepShared(h, LiftedWorld(w), Act(0, e)) == LiftedWorld(Step(h, w, e))
  {
    hide Step, Merge, RollsBack;
    assert Seen(StoredAs(w.items[0], w.items[0].db), LiftedWorld(w).loaded[(0, 0)]) == w.items[0];
  }

  lemma AbsentItem(h: Hash, w: World, e: Event)
    requires !e.Outside? && e.i !in w.items
    ensures Step(h, w, e) == w
  {
  }

  lemma {:induction false} LiftedRunIs(h: Hash, events: seq<Event>)
    requires forall k :: 0 <= k < |events| ==> Solo(events[k])
    ensures Run(h, EMPTY_WORLD, events).items.Keys <= {0}
    ensures RunShared(h, NO_SESSIONS, LiftedRun(events)) == LiftedWorld(Run(h, EMPTY_WORLD, events))
  {
    if events != [] {
      hide Step, StepShared, LiftedWorld, Lifted;
      var earlier, e := events[..|events| - 1], events[|events| - 1];
      LiftedRunIs(h, earlier);
      var _ := OneMore(h, NO_SESSIONS, LiftedRun(earlier), Lifted(e));
      LiftedStep(h, Run(h, EMPTY_WORLD, earlier), e);
    }
  }

  /** A run from the empty archive after which Mnema has deleted bytes that no store holds: while one session
      archives photo.jpg, the user replaces it and a second session discovers the change. */
  lemma TwoSessionsDeleteTheLastCopy(h: Hash, first: Bytes, second: Bytes) returns (events: seq<SharedEvent>)
    requires |first| == |second| <= 1_000_000_000 && h(first) != h(second)
    ensures var x := RunShared(h, NO_SESSIONS, events);
            && PHOTO !in x.env.sources
            && x.log == [Deletion(0, "photo.jpg", h(first), second)]
            && x.env.active == map["photo.jpg" := first]
            && x.stored.Keys == {0}
            && x.stored[0].snapshot.Some? && h(x.stored[0].snapshot.value) == h(first)
            && x.stored[0].coldCopy.Some? && h(x.stored[0].coldCopy.value) == h(first)
  {
    hide Run, RunShared, StepShared;
    var archived := ColdArchiveFirstVersion(h, first);
    LiftedRunIs(h, archived);
    var x := RunShared(h, NO_SESSIONS, LiftedRun(archived));
    var deleted := OverlapDeletes(h, x, 0, 1, 0, Photo("v2", 2, second), 5);
    SharedConcat(h, NO_SESSIONS, LiftedRun(archived), deleted);
    events := LiftedRun(archived) + deleted;
  }
}
