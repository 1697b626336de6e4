/** Transitions and their audit events in one session (src/mnema/jobs/state_service.py), and the
    startup recovery that replays them (src/mnema/worker/recovery.py). */
module Audit {
  import opened Basics
  import opened States

  type ItemId = nat

  datatype Event = Event(item: ItemId, from: ArchiveState, to: ArchiveState)

  /** The archive_items and audit_events tables, reduced to states and transitions. */
  datatype Tables = Tables(rows: map<ItemId, ArchiveState>, events: seq<Event>)

  /** What the session sees, and what survives a rollback or a crash. */
  datatype Session = Session(mem: Tables, durable: Tables)

  datatype Op =
    | Insert(id: ItemId)
    | Transition(id: ItemId, target: ArchiveState)
    | Resume(id: ItemId)
    | Commit
    | Rollback

  const EMPTY := Session(Tables(map[], []), Tables(map[], []))

  function Moved(t: Tables, id: ItemId, target: ArchiveState): Tables
    requires id in t.rows
  {
    Tables(t.rows[id := target], t.events + [Event(id, t.rows[id], target)])
  }

  /** An invalid transition raises before anything is written. */
  function Apply(s: Session, op: Op): Session {
    match op
    case Insert(id) =>
      if id in s.mem.rows then s
      else s.(mem := s.mem.(rows := s.mem.rows[id := DISCOVERED]))
    case Transition(id, target) =>
      if id in s.mem.rows && ValidTransition(s.mem.rows[id], target)
      then s.(mem := Moved(s.mem, id, target)) else s
    case Resume(id) =>
      if id in s.mem.rows then s.(mem := Moved(s.mem, id, s.mem.rows[id])) else s
    case Commit => s.(durable := s.mem)
    case Rollback => s.(mem := s.durable)
  }

  function Run(s: Session, ops: seq<Op>): Session {
    if ops == [] then s else Apply(Run(s, ops[..|ops| - 1]), ops[|ops| - 1])
  }

  // ----- The audit trail of one item -----

  /** The events of an item lead, edge by allowed edge, from DISCOVERED to `end`. */
  predicate Unbroken(events: seq<Event>, id: ItemId, end: ArchiveState) {
    if events == [] then end == DISCOVERED
    else
      var e := events[|events| - 1];
      var earlier := events[..|events| - 1];
      if e.item != id then Unbroken(earlier, id, end)
      else e.to == end && ValidTransition(e.from, e.to) && Unbroken(earlier, id, e.from)
  }

  /** The states an item passed through, oldest first. */
  function Visited(events: seq<Event>, id: ItemId): (p: seq<ArchiveState>)
    ensures |p| > 0
  {
    if events == [] then [DISCOVERED]
    else
      var e := events[|events| - 1];
      var p := Visited(events[..|events| - 1], id);
      if e.item == id then p + [e.to] else p
  }

  predicate Walk(p: seq<ArchiveState>) {
    && |p| > 0
    && p[0] == DISCOVERED
    && forall k :: 0 <= k < |p| - 1 ==> ValidTransition(p[k], p[k + 1])
  }

  lemma {:induction false} UnbrokenIsWalk(events: seq<Event>, id: ItemId, end: ArchiveState)
    requires Unbroken(events, id, end)
    ensures Walk(Visited(events, id))
    ensures Visited(events, id)[|Visited(events, id)| - 1] == end
  {
    if events != [] {
      var e := events[|events| - 1];
      UnbrokenIsWalk(events[..|events| - 1], id, if e.item == id then e.from else end);
    }
  }

  /** The part of a walk from its last QUEUED on (empty when it never queued). */
  function SinceQueued(p: seq<ArchiveState>): seq<ArchiveState> {
    if p == [] then []
    else
      var last := p[|p| - 1];
      if last == QUEUED then [QUEUED]
      else
        var rest := SinceQueued(p[..|p| - 1]);
        if rest == [] then [] else rest + [last]
  }

  /** Repetitions of the same state (self transitions, resumed steps) collapsed. */
  function Stutterless(p: seq<ArchiveState>): seq<ArchiveState> {
    if |p| <= 1 then p
    else
      var rest := Stutterless(p[..|p| - 1]);
      if p[|p| - 1] == p[|p| - 2] then rest else rest + [p[|p| - 1]]
  }

  /** QUEUED, DOWNLOADING, ... up to the given index of the linear path. */
  function FromQueuedTo(k: int): seq<ArchiveState>
    requires 2 <= k < 20
  {
    if k == 2 then [QUEUED] else FromQueuedTo(k - 1) + [OnPath(k)]
  }

  /** A walk standing between QUEUED and DELETED_FROM_SOURCE has, since it last queued,
      visited exactly the linear states up to where it stands, in order, none skipped. */
  lemma {:induction false} NothingSkipped(p: seq<ArchiveState>)
    requires Walk(p)
    requires 2 <= Position(p[|p| - 1]) <= 18
    ensures var since := SinceQueued(p);
            && since != [] && since[0] == QUEUED && since[|since| - 1] == p[|p| - 1]
            && QUEUED !in since[1..]
            && Stutterless(since) == FromQueuedTo(Position(p[|p| - 1]))
  {
    var last := p[|p| - 1];
    if last != QUEUED {
      var earlier := p[..|p| - 1];
      var previous := earlier[|earlier| - 1];
      assert ValidTransition(p[|p| - 2], p[|p| - 1]);
      OnlyPredecessor(previous, last);
      NothingSkipped(earlier);
      var rest := SinceQueued(earlier);
      var since := SinceQueued(p);
      assert since == rest + [last] && since[..|since| - 1] == rest;
      assert since[1..] == rest[1..] + [last];
    }
  }

  // ----- Every run keeps the trail -----

  predicate Consistent(t: Tables) {
    && (forall id :: id in t.rows ==> Unbroken(t.events, id, t.rows[id]))
    && (forall k :: 0 <= k < |t.events| ==> t.events[k].item in t.rows)
  }

  lemma {:induction false} NoEventsMeansDiscovered(events: seq<Event>, id: ItemId)
    requires forall k :: 0 <= k < |events| ==> events[k].item != id
    ensures Unbroken(events, id, DISCOVERED)
  {
    if events != [] {
      NoEventsMeansDiscovered(events[..|events| - 1], id);
    }
  }

  lemma MovedIsConsistent(t: Tables, id: ItemId, target: ArchiveState)
    requires Consistent(t) && id in t.rows && ValidTransition(t.rows[id], target)
    ensures Consistent(Moved(t, id, target))
  {
    var t' := Moved(t, id, target);
    assert t'.events[..|t'.events| - 1] == t.events;
  }

  lemma ApplyKeepsTrail(s: Session, op: Op)
    requires Consistent(s.mem) && Consistent(s.durable)
    ensures Consistent(Apply(s, op).mem) && Consistent(Apply(s, op).durable)
  {
    match op
    case Insert(id) =>
      if id !in s.mem.rows {
        NoEventsMeansDiscovered(s.mem.events, id);
      }
    case Transition(id, target) =>
      if id in s.mem.rows && ValidTransition(s.mem.rows[id], target) {
        MovedIsConsistent(s.mem, id, target);
      }
    case Resume(id) =>
      if id in s.mem.rows {
        MovedIsConsistent(s.mem, id, s.mem.rows[id]);
      }
    case Commit =>
    case Rollback =>
  }

  /** Across any sequence of transitions, commits, rollbacks and crashes the durable
      events of an item form an unbroken chain of allowed edges to its durable state. */
  lemma {:induction false} AuditReplay(ops: seq<Op>)
    ensures Consistent(Run(EMPTY, ops).mem) && Consistent(Run(EMPTY, ops).durable)
  {
    if ops != [] {
      AuditReplay(ops[..|ops| - 1]);
      ApplyKeepsTrail(Run(EMPTY, ops[..|ops| - 1]), ops[|ops| - 1]);
    }
  }

  /** A durable DELETING was reached through the whole archive path since the item last
      queued: no backup, upload or verification state can have been skipped. */
  lemma DeletingWasEarned(ops: seq<Op>, id: ItemId)
    requires id in Run(EMPTY, ops).durable.rows
    requires Run(EMPTY, ops).durable.rows[id] == DELETING
    ensures Stutterless(SinceQueued(Visited(Run(EMPTY, ops).durable.events, id))) == FromQueuedTo(17)
  {
    var t := Run(EMPTY, ops).durable;
    AuditReplay(ops);
    UnbrokenIsWalk(t.events, id, DELETING);
    NothingSkipped(Visited(t.events, id));
  }

  lemma RunAppend(s: Session, ops: seq<Op>, op: Op)
    ensures Run(s, ops + [op]) == Apply(Run(s, ops), op)
  {
    assert (ops + [op])[..|ops|] == ops;
  }

  lemma {:induction false} RunConcat(s: Session, first: seq<Op>, second: seq<Op>)
    ensures Run(s, first + second) == Run(Run(s, first), second)
  {
    if second == [] {
      assert first + second == first;
    } else {
      assert (first + second)[..|first + second| - 1] == first + second[..|second| - 1];
      RunConcat(s, first, second[..|second| - 1]);
    }
  }

  // ----- Startup recovery -----

  predicate RetryAfterRestart(s: ArchiveState) {
    s == DOWNLOADING || s.Restoring?
  }

  predicate ResumeInPlace(s: ArchiveState) {
    s == LOCAL_BACKUP_PENDING || s == COLD_UPLOAD_PENDING || s == COLD_ARCHIVE_PENDING
  }

  predicate Interrupted(s: ArchiveState, onlyDeletions: bool) {
    s == DELETING || (!onlyDeletions && (RetryAfterRestart(s) || ResumeInPlace(s)))
  }

  /** Where recovery leaves an item; `live` says its client upload is still open. */
  function Recovered(s: ArchiveState, live: bool, onlyDeletions: bool): ArchiveState {
    if !Interrupted(s, onlyDeletions) then s
    else if s == DELETING then ManualReview
    else if ResumeInPlace(s) || live then s
    else FailedRetryable
  }

  /** The events of one item. */
  function Trail(events: seq<Event>, id: ItemId): seq<Event> {
    if events == [] then []
    else
      var earlier := Trail(events[..|events| - 1], id);
      if events[|events| - 1].item == id then earlier + [events[|events| - 1]] else earlier
  }

  lemma TrailAppend(events: seq<Event>, e: Event, id: ItemId)
    ensures Trail(events + [e], id) == Trail(events, id) + if e.item == id then [e] else []
  {
    assert (events + [e])[..|events|] == events;
  }

  /** Recovery state by state: a deletion whose outcome is unknown is never retried by itself. */
  lemma RecoveryByState(s: ArchiveState, live: bool, onlyDeletions: bool)
    ensures Recovered(DELETING, live, onlyDeletions) == ManualReview
    ensures onlyDeletions && s != DELETING ==> Recovered(s, live, true) == s
    ensures s == DOWNLOADING || s.Restoring? ==> Recovered(s, live, false) == if live then s else FailedRetryable
    ensures s != DELETING && s != DOWNLOADING && !s.Restoring? ==> Recovered(s, live, onlyDeletions) == s
  {
  }

  /** What recovery made of one item: its state now, and the events it wrote for it. */
  predicate Mended(id: ItemId, s: ArchiveState, live: bool, onlyDeletions: bool, now: ArchiveState, news: seq<Event>) {
    if s == DELETING then now == ManualReview && news == [Event(id, DELETING, ManualReview)]
    else if onlyDeletions then now == s && news == []
    else if s == DOWNLOADING || s.Restoring? then
      if live then now == s && news == [] else now == FailedRetryable && news == [Event(id, s, FailedRetryable)]
    else if s == LOCAL_BACKUP_PENDING || s == COLD_UPLOAD_PENDING || s == COLD_ARCHIVE_PENDING then
      now == s && news == [Event(id, s, s)]
    else now == s && news == []
  }

  lemma MendedIsRecovered(id: ItemId, s: ArchiveState, live: bool, onlyDeletions: bool, now: ArchiveState, news: seq<Event>)
    requires Mended(id, s, live, onlyDeletions, now, news)
    ensures now == Recovered(s, live, onlyDeletions)
  {
  }

  lemma UninterruptedIsMended(id: ItemId, s: ArchiveState, live: bool, onlyDeletions: bool)
    ensures !Interrupted(s, onlyDeletions) ==> Mended(id, s, live, onlyDeletions, s, [])
    ensures Interrupted(s, onlyDeletions) ==> Interrupted(s, false) && (onlyDeletions ==> s == DELETING)
  {
  }

  /** One database session over the two tables. */
  class ItemSession {
    var rows: map<ItemId, ArchiveState>
    var events: seq<Event>
    var durableRows: map<ItemId, ArchiveState>
    var durableEvents: seq<Event>

    ghost function State(): Session
      reads this
    {
      Session(Tables(rows, events), Tables(durableRows, durableEvents))
    }

    constructor ()
      ensures State() == EMPTY
    {
      rows, events, durableRows, durableEvents := map[], [], map[], [];
    }

    method InsertItem(id: ItemId)
      modifies this
      ensures State() == Apply(old(State()), Insert(id))
      ensures rows == if id in old(rows) then old(rows) else old(rows)[id := DISCOVERED]
      ensures events == old(events) && State().durable == old(State()).durable
    {
      if id !in rows {
        rows := rows[id := DISCOVERED];
      }
    }

    /** Changes the state and writes the audit event together, or raises and does neither. */
    method TransitionItem(id: ItemId, target: ArchiveState) returns (ok: bool)
      modifies this
      ensures State() == Apply(old(State()), Transition(id, target))
      ensures ok <==> id in old(rows) && ValidTransition(old(rows)[id], target)
      ensures rows == if ok then old(rows)[id := target] else old(rows)
      ensures events == old(events) + if ok then [Event(id, old(rows)[id], target)] else []
      ensures durableRows == old(durableRows) && durableEvents == old(durableEvents)
    {
      if id !in rows || !ValidTransition(rows[id], target) {
        return false;
      }
      var current := rows[id];
      rows := rows[id := target];
      events := events + [Event(id, current, target)];
      return true;
    }

    method RecordResumed(id: ItemId)
      modifies this
      ensures State() == Apply(old(State()), Resume(id))
      ensures rows == old(rows) && durableRows == old(durableRows) && durableEvents == old(durableEvents)
      ensures events == old(events) + if id in rows then [Event(id, rows[id], rows[id])] else []
    {
      if id in rows {
        events := events + [Event(id, rows[id], rows[id])];
        assert rows[id := rows[id]] == rows;
      }
    }

    method CommitSession()
      modifies this
      ensures State() == Apply(old(State()), Commit)
      ensures rows == old(rows) && events == old(events) && durableRows == rows && durableEvents == events
    {
      durableRows, durableEvents := rows, events;
    }

    method RollbackSession()
      modifies this
      ensures State() == Apply(old(State()), Rollback)
      ensures durableRows == old(durableRows) && durableEvents == old(durableEvents)
      ensures rows == durableRows && events == durableEvents
    {
      rows, events := durableRows, durableEvents;
    }

    /** Recovery of one interrupted item; a live client upload is left alone. */
    method RecoverItem(id: ItemId, live: bool) returns (ghost ops: seq<Op>)
      requires id in rows && Interrupted(rows[id], false)
      requires Consistent(State().mem)
      modifies this
      ensures State() == Run(old(State()), ops) && Consistent(State().mem)
      ensures rows == old(rows)[id := Recovered(old(rows)[id], live, false)]
      ensures State().durable == old(State()).durable
      ensures |old(events)| <= |events| <= |old(events)| + 1 && events[..|old(events)|] == old(events)
      ensures var s := old(rows)[id];
              var news := events[|old(events)|..];
              && (s == DELETING ==> rows[id] == ManualReview && news == [Event(id, DELETING, ManualReview)])
              && (s == DOWNLOADING || s.Restoring? ==>
                    if live then rows[id] == s && news == []
                    else rows[id] == FailedRetryable && news == [Event(id, s, FailedRetryable)])
              && (s != DELETING && s != DOWNLOADING && !s.Restoring? ==> rows[id] == s && news == [Event(id, s, s)])
    {
      ghost var op: Op;
      if rows[id] == DELETING {
        var _ := TransitionItem(id, ManualReview);
        op := Transition(id, ManualReview);
      } else if ResumeInPlace(rows[id]) {
        RecordResumed(id);
        op := Resume(id);
      } else if live {
        return [];
      } else {
        var _ := TransitionItem(id, FailedRetryable);
        op := Transition(id, FailedRetryable);
      }
      MovedIsConsistent(old(State()).mem, id, rows[id]);
      RunAppend(old(State()), [], op);
      return [] + [op];
    }

    /** The same, as one more step of a pass that began when `written` had been written. */
    method MendItem(id: ItemId, live: bool, onlyDeletions: bool, ghost written: seq<Event>) returns (ghost ops: seq<Op>)
      requires id in rows && Interrupted(rows[id], onlyDeletions)
      requires Consistent(State().mem)
      requires |written| <= |events| && events[..|written|] == written && Trail(events[|written|..], id) == []
      modifies this
      ensures State() == Run(old(State()), ops) && Consistent(State().mem)
      ensures id in rows && rows == old(rows)[id := rows[id]]
      ensures |written| <= |events| && events[..|written|] == written
      ensures Mended(id, old(rows)[id], live, onlyDeletions, rows[id], Trail(events[|written|..], id))
      ensures forall j :: j != id ==> Trail(events[|written|..], j) == Trail(old(events)[|written|..], j)
    {
      hide Run, Consistent, Trail;
      UninterruptedIsMended(id, rows[id], live, onlyDeletions);
      ghost var soFar := events;
      ops := RecoverItem(id, live);
      MendedNext(written, soFar, events, id);
    }

    /** Startup recovery: one transaction over every interrupted item, in any order. The
        new row of every item is the one `Recovered` names, and the trail stays unbroken. */
    method ReconcileInterruptedItems(live: set<ItemId>, onlyDeletions: bool)
        returns (ghost ops: seq<Op>)
      requires Consistent(State().mem)
      modifies this
      ensures State() == Run(old(State()), ops)
      ensures rows == map id | id in old(rows) :: Recovered(old(rows)[id], id in live, onlyDeletions)
      ensures durableRows == rows && durableEvents == events
      ensures Consistent(State().durable)
      ensures |old(events)| <= |events| && events[..|old(events)|] == old(events) && rows.Keys == old(rows).Keys
      ensures forall id :: id in old(rows) ==>
        var s := old(rows)[id];
        var news := Trail(events[|old(events)|..], id);
        if s == DELETING then rows[id] == ManualReview && news == [Event(id, DELETING, ManualReview)]
        else if !onlyDeletions && (s == DOWNLOADING || s.Restoring?) && id !in live then
          rows[id] == FailedRetryable && news == [Event(id, s, FailedRetryable)]
        else if !onlyDeletions && (s == LOCAL_BACKUP_PENDING || s == COLD_UPLOAD_PENDING || s == COLD_ARCHIVE_PENDING) then
          rows[id] == s && news == [Event(id, s, s)]
        else rows[id] == s && news == []
    {
      hide Run, Consistent, Trail, Mended, Interrupted, Recovered;
      var start := rows;
      ghost var written := events;
      var todo := set id | id in rows && Interrupted(rows[id], onlyDeletions);
      ops := [];
      NothingMended(start, events, todo, live, onlyDeletions);
      RunNothing(State());
      while todo != {}
        invariant todo <= start.Keys == rows.Keys
        invariant forall id :: id in todo ==> rows[id] == start[id] && Interrupted(start[id], onlyDeletions)
        invariant State() == Run(old(State()), ops) && Consistent(State().mem)
        invariant |written| <= |events| && events[..|written|] == written
        invariant forall id :: id in todo ==> Trail(events[|written|..], id) == []
        invariant forall id :: id in start.Keys - todo ==>
          Mended(id, start[id], id in live, onlyDeletions, rows[id], Trail(events[|written|..], id))
        decreases todo
      {
        var id :| id in todo;
        todo := todo - {id};
        var more := MendItem(id, id in live, onlyDeletions, written);
        RunConcat(old(State()), ops, more);
        ops := ops + more;
      }
      AllMended(start, rows, live, onlyDeletions, events[|written|..]);
      RunAppend(old(State()), ops, Commit);
      ops := ops + [Commit];
      CommitSession();
    }
  }

  lemma RunNothing(s: Session)
    ensures Run(s, []) == s
  {
  }

  lemma NothingMended(rows: map<ItemId, ArchiveState>, events: seq<Event>, todo: set<ItemId>, live: set<ItemId>,
                      onlyDeletions: bool)
    requires todo == set id | id in rows && Interrupted(rows[id], onlyDeletions)
    ensures events[|events|..] == [] && forall id :: Trail(events[|events|..], id) == []
    ensures forall id :: id in rows.Keys - todo ==> Mended(id, rows[id], id in live, onlyDeletions, rows[id], [])
  {
    hide Mended;
    forall id | id in rows.Keys - todo ensures Mended(id, rows[id], id in live, onlyDeletions, rows[id], []) {
      UninterruptedIsMended(id, rows[id], id in live, onlyDeletions);
    }
  }

  lemma AllMended(start: map<ItemId, ArchiveState>, rows: map<ItemId, ArchiveState>, live: set<ItemId>,
                  onlyDeletions: bool, news: seq<Event>)
    requires start.Keys == rows.Keys
    requires forall id :: id in start ==> Mended(id, start[id], id in live, onlyDeletions, rows[id], Trail(news, id))
    ensures rows == map id | id in start :: Recovered(start[id], id in live, onlyDeletions)
    ensures forall id :: id in start ==>
      var s := start[id];
      if s == DELETING then rows[id] == ManualReview && Trail(news, id) == [Event(id, DELETING, ManualReview)]
      else if !onlyDeletions && (s == DOWNLOADING || s.Restoring?) && id !in live then
        rows[id] == FailedRetryable && Trail(news, id) == [Event(id, s, FailedRetryable)]
      else if !onlyDeletions && (s == LOCAL_BACKUP_PENDING || s == COLD_UPLOAD_PENDING || s == COLD_ARCHIVE_PENDING) then
        rows[id] == s && Trail(news, id) == [Event(id, s, s)]
      else rows[id] == s && Trail(news, id) == []
  {
    hide Recovered;
    forall id | id in start ensures rows[id] == Recovered(start[id], id in live, onlyDeletions) {
      MendedIsRecovered(id, start[id], id in live, onlyDeletions, rows[id], Trail(news, id));
    }
  }

  /** One more item was recovered: its new event, if any, is the only one added. */
  lemma MendedNext(written: seq<Event>, soFar: seq<Event>, events: seq<Event>, id: ItemId)
    requires |written| <= |soFar| <= |events| <= |soFar| + 1 && soFar[..|written|] == written && events[..|soFar|] == soFar
    requires |events| > |soFar| ==> events[|soFar|].item == id
    ensures events[..|written|] == written
    ensures forall j :: j != id ==> Trail(events[|written|..], j) == Trail(soFar[|written|..], j)
    ensures Trail(events[|written|..], id) == Trail(soFar[|written|..], id) + events[|soFar|..]
  {
    assert events[..|written|] == soFar[..|written|];
    if |events| > |soFar| {
      var e := events[|soFar|];
      assert events[|written|..] == soFar[|written|..] + [e] && events[|soFar|..] == [e];
      forall j ensures Trail(events[|written|..], j) == Trail(soFar[|written|..], j) + if e.item == j then [e] else [] {
        TrailAppend(soFar[|written|..], e, j);
      }
    } else {
      assert events == soFar;
    }
  }
}
