/** The audit trail when several sessions work at once (src/mnema/jobs/database.py): each keeps its own copy of
    the rows it loaded, also across its commits, and nothing compares that copy with the table. */
module AuditSessions {
  import opened Basics
  import opened States
  import opened Audit

  type SessionId = nat

  /** A session: its rows, the same rows as it loaded or last committed them, and its unsaved events. A row it
      inserted and has not committed yet has no base. */
  datatype Local = Local(rows: map<ItemId, ArchiveState>, base: map<ItemId, ArchiveState>, pending: seq<Event>)

  datatype Shared = Shared(durable: Tables, sessions: map<SessionId, Local>)

  datatype SharedOp =
    | LoadRow(s: SessionId, id: ItemId)
    | InsertRow(s: SessionId, id: ItemId)
    | MoveRow(s: SessionId, id: ItemId, target: ArchiveState)
    | ResumeRow(s: SessionId, id: ItemId)
    | CommitRows(s: SessionId)
    | EndSession(s: SessionId)

  const NO_SESSIONS := Shared(Tables(map[], []), map[])

  function LocalOf(x: Shared, s: SessionId): Local {
    if s in x.sessions then x.sessions[s] else Local(map[], map[], [])
  }

  ghost predicate Known(x: Shared, id: ItemId) {
    id in x.durable.rows || exists s :: s in x.sessions && id in x.sessions[s].rows
  }

  predicate Touched(events: seq<Event>, id: ItemId) {
    exists k :: 0 <= k < |events| && events[k].item == id
  }

  predicate Changed(events: seq<Event>, id: ItemId) {
    exists k :: 0 <= k < |events| && events[k].item == id && events[k].from != events[k].to
  }

  function Recorded(l: Local, id: ItemId, target: ArchiveState): Local
    requires id in l.rows
  {
    l.(rows := l.rows[id := target], pending := l.pending + [Event(id, l.rows[id], target)])
  }

  /** A commit adds the events and overwrites the states the session changed, whatever the table holds. */
  function Merged(d: Tables, l: Local): Tables {
    Tables(map id | id in d.rows.Keys + l.rows.Keys ::
             if id in l.rows && (id !in d.rows || Changed(l.pending, id)) then l.rows[id] else d.rows[id],
           d.events + l.pending)
  }

  ghost function ApplyShared(x: Shared, op: SharedOp): Shared {
    var l := LocalOf(x, op.s);
    match op
    case LoadRow(s, id) =>
      if id !in x.durable.rows || id in l.rows then x
      else
        var state := x.durable.rows[id];
        x.(sessions := x.sessions[s := l.(rows := l.rows[id := state], base := l.base[id := state])])
    case InsertRow(s, id) =>
      if Known(x, id) then x
      else x.(sessions := x.sessions[s := l.(rows := l.rows[id := DISCOVERED])])
    case MoveRow(s, id, target) =>
      if id in l.rows && ValidTransition(l.rows[id], target)
      then x.(sessions := x.sessions[s := Recorded(l, id, target)]) else x
    case ResumeRow(s, id) =>
      if id in l.rows then x.(sessions := x.sessions[s := Recorded(l, id, l.rows[id])]) else x
    case CommitRows(s) => Shared(Merged(x.durable, l), x.sessions[s := Local(l.rows, l.rows, [])])
    case EndSession(s) => x.(sessions := x.sessions - {s})
  }

  ghost function RunShared(x: Shared, ops: seq<SharedOp>): Shared {
    if ops == [] then x else ApplyShared(RunShared(x, ops[..|ops| - 1]), ops[|ops| - 1])
  }

  // ----- Chains of events -----

  /** The events of an item lead from `start` to `end` by allowed edges. */
  predicate Leads(events: seq<Event>, id: ItemId, start: ArchiveState, end: ArchiveState) {
    if events == [] then end == start
    else
      var e := events[|events| - 1];
      var earlier := events[..|events| - 1];
      if e.item != id then Leads(earlier, id, start, end)
      else e.to == end && ValidTransition(e.from, e.to) && Leads(earlier, id, start, e.from)
  }

  function LastState(events: seq<Event>, id: ItemId): ArchiveState {
    Visited(events, id)[|Visited(events, id)| - 1]
  }

  predicate Linked(events: seq<Event>, id: ItemId) {
    Unbroken(events, id, LastState(events, id))
  }

  lemma UnbrokenIsLinked(events: seq<Event>, id: ItemId, end: ArchiveState)
    ensures Unbroken(events, id, end) <==> Linked(events, id) && end == LastState(events, id)
  {
    if Unbroken(events, id, end) {
      UnbrokenIsWalk(events, id, end);
    }
  }

  lemma TouchedLast(events: seq<Event>, id: ItemId)
    requires events != []
    ensures Touched(events, id) <==> Touched(events[..|events| - 1], id) || events[|events| - 1].item == id
    ensures Changed(events, id) <==>
            || Changed(events[..|events| - 1], id)
            || (events[|events| - 1].item == id && events[|events| - 1].from != events[|events| - 1].to)
  {
    var n := |events| - 1;
    if k :| 0 <= k < n && events[k].item == id {
      assert events[..n][k].item == id;
    }
    if k :| 0 <= k < n && events[k].item == id && events[k].from != events[k].to {
      assert events[..n][k].item == id;
    }
  }

  lemma {:induction false} LeadsSomewhere(events: seq<Event>, id: ItemId, start: ArchiveState, end: ArchiveState)
    requires Leads(events, id, start, end)
    ensures !Changed(events, id) ==> start == end
  {
    if events != [] {
      var e := events[|events| - 1];
      TouchedLast(events, id);
      LeadsSomewhere(events[..|events| - 1], id, start, if e.item == id then e.from else end);
    }
  }

  /** A chain appended to a trail continues it exactly when it starts where the trail ends. */
  lemma {:induction false} AppendedChain(a: seq<Event>, b: seq<Event>, id: ItemId, start: ArchiveState,
                                         end: ArchiveState, state: ArchiveState)
    requires Leads(b, id, start, end)
    ensures Unbroken(a + b, id, state) <==>
            if Touched(b, id) then state == end && Unbroken(a, id, start) else Unbroken(a, id, state)
  {
    if b == [] {
      assert a + b == a;
    } else {
      var e := b[|b| - 1];
      var earlier := b[..|b| - 1];
      assert (a + b)[..|a + b| - 1] == a + earlier;
      TouchedLast(b, id);
      if e.item == id {
        AppendedChain(a, earlier, id, start, e.from, e.from);
        if !Touched(earlier, id) {
          LeadsUntouched(earlier, id, start, e.from);
        }
      } else {
        AppendedChain(a, earlier, id, start, end, state);
      }
    }
  }

  lemma {:induction false} LeadsUntouched(events: seq<Event>, id: ItemId, start: ArchiveState, end: ArchiveState)
    requires Leads(events, id, start, end) && !Touched(events, id)
    ensures start == end
  {
    if events != [] {
      TouchedLast(events, id);
      LeadsUntouched(events[..|events| - 1], id, start, end);
    }
  }

  lemma LeadsOneMore(events: seq<Event>, id: ItemId, start: ArchiveState, end: ArchiveState, e: Event)
    requires Leads(events, id, start, end)
    ensures e.item != id ==> Leads(events + [e], id, start, end)
    ensures e.item == id && e.from == end && ValidTransition(e.from, e.to) ==> Leads(events + [e], id, start, e.to)
  {
    assert (events + [e])[..|events|] == events;
  }

  // ----- What every run keeps -----

  function Start(l: Local, id: ItemId): ArchiveState {
    if id in l.base then l.base[id] else DISCOVERED
  }

  /** A session's events lead each of its rows from where it loaded it to where it has it. */
  ghost predicate LocalOk(l: Local) {
    && l.base.Keys <= l.rows.Keys
    && (forall id :: id in l.rows ==> Leads(l.pending, id, Start(l, id), l.rows[id]))
    && (forall k :: 0 <= k < |l.pending| ==> l.pending[k].item in l.rows)
  }

  /** Loaded rows are in the table; a row that is not was inserted by one session. */
  ghost predicate IdsOk(x: Shared) {
    && (forall s, id :: s in x.sessions && id in x.sessions[s].base ==> id in x.durable.rows)
    && (forall s, id :: s in x.sessions && id in x.sessions[s].rows && id !in x.sessions[s].base ==>
          id !in x.durable.rows)
    && (forall s, t, id ::
          s in x.sessions && t in x.sessions && id in x.sessions[s].rows && id in x.sessions[t].rows ==>
          id in x.sessions[s].base || s == t)
  }

  ghost predicate TableOk(d: Tables) {
    && (forall id :: id in d.rows && Linked(d.events, id) ==> d.rows[id] == LastState(d.events, id))
    && (forall k :: 0 <= k < |d.events| ==> d.events[k].item in d.rows)
  }

  ghost predicate SharedOk(x: Shared) {
    (forall s :: s in x.sessions ==> LocalOk(x.sessions[s])) && IdsOk(x) && TableOk(x.durable)
  }

  lemma ConsistentIsLinked(d: Tables)
    requires TableOk(d)
    ensures Consistent(d) <==> forall id :: id in d.rows ==> Linked(d.events, id)
  {
    hide Linked, LastState;
    forall id | id in d.rows
      ensures Unbroken(d.events, id, d.rows[id]) <==> Linked(d.events, id) && d.rows[id] == LastState(d.events, id)
    {
      UnbrokenIsLinked(d.events, id, d.rows[id]);
    }
  }

  /** The session's copy of a row is still what the table holds. */
  predicate FreshRow(d: Tables, l: Local, id: ItemId) {
    id in l.base ==> id in d.rows && d.rows[id] == l.base[id]
  }

  /** Nobody else committed a state of a row this commit writes events for since the session loaded it. */
  ghost predicate FreshCommit(x: Shared, op: SharedOp) {
    op.CommitRows? ==>
      var l := LocalOf(x, op.s);
      forall id :: Touched(l.pending, id) ==> FreshRow(x.durable, l, id)
  }

  ghost predicate NoStaleCommit(x: Shared, ops: seq<SharedOp>) {
    ops == []
    || (NoStaleCommit(x, ops[..|ops| - 1]) && FreshCommit(RunShared(x, ops[..|ops| - 1]), ops[|ops| - 1]))
  }

  lemma MoveKeepsLocal(l: Local, id: ItemId, target: ArchiveState)
    requires LocalOk(l) && id in l.rows && ValidTransition(l.rows[id], target)
    ensures LocalOk(Recorded(l, id, target))
  {
    var l' := Recorded(l, id, target);
    forall j | j in l'.rows ensures Leads(l'.pending, j, Start(l', j), l'.rows[j]) {
      LeadsOneMore(l.pending, j, Start(l, j), l.rows[j], Event(id, l.rows[id], target));
    }
  }

  lemma {:induction false} NothingPending(id: ItemId, events: seq<Event>, state: ArchiveState)
    requires !Touched(events, id)
    ensures Leads(events, id, state, state)
  {
    if events != [] {
      TouchedLast(events, id);
      NothingPending(id, events[..|events| - 1], state);
    }
  }

  lemma NewRowKeepsLocal(l: Local, id: ItemId, state: ArchiveState)
    requires LocalOk(l) && id !in l.rows
    ensures LocalOk(l.(rows := l.rows[id := state], base := l.base[id := state]))
    ensures LocalOk(l.(rows := l.rows[id := DISCOVERED]))
  {
    NothingPending(id, l.pending, state);
    NothingPending(id, l.pending, DISCOVERED);
  }

  lemma EmptyLocalOk(x: Shared, s: SessionId)
    requires SharedOk(x)
    ensures LocalOk(LocalOf(x, s))
  {
  }

  /** What a commit does to one row of the table. */
  lemma CommittedRow(x: Shared, s: SessionId, id: ItemId)
    requires SharedOk(x)
    requires var d' := Merged(x.durable, LocalOf(x, s)); id in d'.rows
    ensures var l := LocalOf(x, s);
            var d' := Merged(x.durable, l);
            && (Touched(l.pending, id) ==> id in l.rows)
            && (Linked(d'.events, id) <==>
                Linked(x.durable.events, id)
                && (Touched(l.pending, id) ==> FreshRow(x.durable, l, id)))
            && (Linked(d'.events, id) ==> d'.rows[id] == LastState(d'.events, id))
  {
    var l := LocalOf(x, s);
    var d, d' := x.durable, Merged(x.durable, l);
    EmptyLocalOk(x, s);
    var start := Start(l, id);
    hide LocalOk, IdsOk, TableOk, Linked, LastState;
    assert Leads(l.pending, id, start, if id in l.rows then l.rows[id] else start) by { PendingLeads(l, id); }
    var end := if id in l.rows then l.rows[id] else start;
    AppendedChain(d.events, l.pending, id, start, end, LastState(d'.events, id));
    UnbrokenIsLinked(d'.events, id, LastState(d'.events, id));
    UnbrokenIsLinked(d.events, id, start);
    UnbrokenIsLinked(d.events, id, LastState(d'.events, id));
    LeadsSomewhere(l.pending, id, start, end);
    RowFacts(x, s, id);
    if !Touched(l.pending, id) {
      AppendedChain(d.events, l.pending, id, start, end, LastState(d.events, id));
      UnbrokenIsLinked(d'.events, id, LastState(d.events, id));
      UnbrokenIsLinked(d.events, id, LastState(d.events, id));
      LeadsUntouched(l.pending, id, start, end);
    } else {
      AppendedChain(d.events, l.pending, id, start, end, end);
      UnbrokenIsLinked(d'.events, id, end);
    }
  }

  lemma PendingLeads(l: Local, id: ItemId)
    requires LocalOk(l)
    ensures Leads(l.pending, id, Start(l, id), if id in l.rows then l.rows[id] else Start(l, id))
  {
    if id !in l.rows {
      NothingPending(id, l.pending, Start(l, id));
    }
  }

  /** What the invariant says about one row and one session. */
  lemma RowFacts(x: Shared, s: SessionId, id: ItemId)
    requires SharedOk(x)
    ensures var l := LocalOf(x, s);
            && (Touched(l.pending, id) ==> id in l.rows)
            && (id in l.base ==> id in l.rows && id in x.durable.rows)
            && (id in l.rows && id !in l.base ==> id !in x.durable.rows)
            && (id !in x.durable.rows ==> Linked(x.durable.events, id) && LastState(x.durable.events, id) == DISCOVERED)
            && (id in x.durable.rows && Linked(x.durable.events, id) ==>
                x.durable.rows[id] == LastState(x.durable.events, id))
  {
    if id !in x.durable.rows {
      NoEventsMeansDiscovered(x.durable.events, id);
      UnbrokenIsLinked(x.durable.events, id, DISCOVERED);
    }
  }

  lemma CommitKeepsTable(x: Shared, s: SessionId)
    requires SharedOk(x)
    ensures TableOk(Merged(x.durable, LocalOf(x, s)))
  {
    hide Linked, LastState, IdsOk;
    var d' := Merged(x.durable, LocalOf(x, s));
    EmptyLocalOk(x, s);
    forall id | id in d'.rows && Linked(d'.events, id) ensures d'.rows[id] == LastState(d'.events, id) {
      CommittedRow(x, s, id);
    }
  }

  lemma CommittedLocalOk(l: Local)
    ensures LocalOk(Local(l.rows, l.rows, []))
  {
  }

  lemma CommitKeepsIds(x: Shared, s: SessionId)
    requires SharedOk(x)
    ensures IdsOk(ApplyShared(x, CommitRows(s)))
  {
    hide TableOk, Changed, Leads;
    EmptyLocalOk(x, s);
  }

  lemma NewRowKeepsIds(x: Shared, op: SharedOp)
    requires SharedOk(x) && (op.LoadRow? || op.InsertRow?)
    ensures IdsOk(ApplyShared(x, op))
  {
    hide TableOk, Leads, ValidTransition;
    EmptyLocalOk(x, op.s);
  }

  lemma OpKeepsIds(x: Shared, op: SharedOp)
    requires SharedOk(x) && (op.MoveRow? || op.ResumeRow? || op.EndSession?)
    ensures IdsOk(ApplyShared(x, op))
  {
    hide TableOk, Leads, ValidTransition;
    EmptyLocalOk(x, op.s);
  }

  lemma OpKeepsLocals(x: Shared, op: SharedOp)
    requires SharedOk(x)
    ensures forall s :: s in ApplyShared(x, op).sessions ==> LocalOk(ApplyShared(x, op).sessions[s])
  {
    hide LocalOk, IdsOk, TableOk, Merged, Known;
    EmptyLocalOk(x, op.s);
    var l := LocalOf(x, op.s);
    match op
    case LoadRow(s, id) =>
      if id in x.durable.rows && id !in l.rows {
        NewRowKeepsLocal(l, id, x.durable.rows[id]);
      }
    case InsertRow(s, id) =>
      if !Known(x, id) {
        assert id !in l.rows by { NotKnown(x, s, id); }
        NewRowKeepsLocal(l, id, DISCOVERED);
      }
    case MoveRow(s, id, target) =>
      if id in l.rows && ValidTransition(l.rows[id], target) {
        MoveKeepsLocal(l, id, target);
      }
    case ResumeRow(s, id) =>
      if id in l.rows {
        MoveKeepsLocal(l, id, l.rows[id]);
      }
    case CommitRows(s) => CommittedLocalOk(l);
    case EndSession(s) =>
  }

  lemma NotKnown(x: Shared, s: SessionId, id: ItemId)
    requires !Known(x, id)
    ensures id !in LocalOf(x, s).rows
  {
  }

  lemma OpKeepsShared(x: Shared, op: SharedOp)
    requires SharedOk(x)
    ensures SharedOk(ApplyShared(x, op))
  {
    OpKeepsLocals(x, op);
    hide LocalOk, IdsOk, TableOk, Merged, Known, Recorded;
    if op.CommitRows? {
      CommitKeepsIds(x, op.s);
      CommitKeepsTable(x, op.s);
    } else if op.LoadRow? || op.InsertRow? {
      NewRowKeepsIds(x, op);
    } else {
      OpKeepsIds(x, op);
    }
  }

  // ----- The trail stays whole exactly when no commit is stale -----

  lemma CommitLinksIff(x: Shared, s: SessionId)
    requires SharedOk(x)
    ensures var d' := Merged(x.durable, LocalOf(x, s));
            (forall id :: id in d'.rows ==> Linked(d'.events, id)) <==>
            (forall id :: id in x.durable.rows ==> Linked(x.durable.events, id)) && FreshCommit(x, CommitRows(s))
  {
    hide SharedOk, Linked, FreshRow, Touched, Changed;
    var l := LocalOf(x, s);
    var d' := Merged(x.durable, l);
    forall id | id in d'.rows
      ensures Touched(l.pending, id) ==> id in l.rows
      ensures Linked(d'.events, id) <==>
              Linked(x.durable.events, id) && (Touched(l.pending, id) ==> FreshRow(x.durable, l, id))
      ensures id !in x.durable.rows ==> Linked(x.durable.events, id)
    {
      CommittedRow(x, s, id);
      RowFacts(x, s, id);
    }
    forall id | Touched(l.pending, id) ensures id in d'.rows {
      RowFacts(x, s, id);
    }
  }

  /** Whatever the sessions do and however their steps interleave, the durable events of every item are an
      unbroken chain of allowed edges to its durable state exactly when no session ever committed events for a
      row whose durable state had changed since it loaded it. */
  lemma {:induction false} TrailIntactIff(ops: seq<SharedOp>)
    ensures SharedOk(RunShared(NO_SESSIONS, ops))
    ensures Consistent(RunShared(NO_SESSIONS, ops).durable) <==> NoStaleCommit(NO_SESSIONS, ops)
  {
    hide SharedOk, Consistent, FreshCommit, Merged;
    if ops == [] {
      assert SharedOk(NO_SESSIONS) && Consistent(NO_SESSIONS.durable) by { EmptyIsOk(); }
    } else {
      var earlier, op := ops[..|ops| - 1], ops[|ops| - 1];
      TrailIntactIff(earlier);
      var x := RunShared(NO_SESSIONS, earlier);
      OpKeepsShared(x, op);
      if op.CommitRows? {
        CommitIff(x, op.s);
      } else {
        OtherOpsKeepTheTable(x, op);
      }
    }
  }

  lemma EmptyIsOk()
    ensures SharedOk(NO_SESSIONS) && Consistent(NO_SESSIONS.durable)
  {
  }

  lemma CommitIff(x: Shared, s: SessionId)
    requires SharedOk(x)
    ensures Consistent(Merged(x.durable, LocalOf(x, s))) <==> Consistent(x.durable) && FreshCommit(x, CommitRows(s))
  {
    CommitKeepsTable(x, s);
    hide LocalOk, IdsOk, TableOk, Linked, FreshCommit, Merged, Consistent;
    ConsistentIsLinked(x.durable);
    ConsistentIsLinked(Merged(x.durable, LocalOf(x, s)));
    CommitLinksIff(x, s);
  }

  lemma OtherOpsKeepTheTable(x: Shared, op: SharedOp)
    requires !op.CommitRows?
    ensures ApplyShared(x, op).durable == x.durable && FreshCommit(x, op)
  {
  }

  // ----- One session per item is enough -----

  /** A row is loaded only while no other session has it. */
  ghost predicate OneAtATime(x: Shared, op: SharedOp) {
    op.LoadRow? ==> forall t :: t in x.sessions && t != op.s ==> op.id !in x.sessions[t].rows
  }

  ghost predicate AlwaysOneAtATime(x: Shared, ops: seq<SharedOp>) {
    ops == []
    || (AlwaysOneAtATime(x, ops[..|ops| - 1]) && OneAtATime(RunShared(x, ops[..|ops| - 1]), ops[|ops| - 1]))
  }

  ghost predicate RowsFresh(x: Shared) {
    && (forall s, id :: s in x.sessions && id in x.sessions[s].base ==> FreshRow(x.durable, x.sessions[s], id))
    && (forall s, t, id ::
          s in x.sessions && t in x.sessions && id in x.sessions[s].rows && id in x.sessions[t].rows ==> s == t)
  }

  lemma LoadStaysFresh(x: Shared, op: SharedOp)
    requires SharedOk(x) && RowsFresh(x) && OneAtATime(x, op) && op.LoadRow?
    ensures RowsFresh(ApplyShared(x, op))
  {
    hide TableOk, IdsOk, Leads, ValidTransition;
    EmptyLocalOk(x, op.s);
  }

  lemma InsertStaysFresh(x: Shared, op: SharedOp)
    requires SharedOk(x) && RowsFresh(x) && op.InsertRow?
    ensures RowsFresh(ApplyShared(x, op))
  {
    hide TableOk, IdsOk, Leads, ValidTransition;
    EmptyLocalOk(x, op.s);
  }

  lemma MoveStaysFresh(x: Shared, op: SharedOp)
    requires SharedOk(x) && RowsFresh(x) && (op.MoveRow? || op.ResumeRow? || op.EndSession?)
    ensures RowsFresh(ApplyShared(x, op))
  {
    hide TableOk, IdsOk, Leads, ValidTransition;
    EmptyLocalOk(x, op.s);
  }

  lemma OneAtATimeStaysFresh(x: Shared, op: SharedOp)
    requires SharedOk(x) && RowsFresh(x) && OneAtATime(x, op)
    ensures RowsFresh(ApplyShared(x, op))
  {
    hide SharedOk, RowsFresh, OneAtATime, ApplyShared;
    match op
    case CommitRows(s) => CommitStaysFresh(x, s);
    case LoadRow(_, _) => LoadStaysFresh(x, op);
    case InsertRow(_, _) => InsertStaysFresh(x, op);
    case _ => MoveStaysFresh(x, op);
  }

  lemma CommitStaysFresh(x: Shared, s: SessionId)
    requires SharedOk(x) && RowsFresh(x)
    ensures RowsFresh(ApplyShared(x, CommitRows(s)))
  {
    hide TableOk, IdsOk, ValidTransition;
    var l := LocalOf(x, s);
    EmptyLocalOk(x, s);
    var x' := ApplyShared(x, CommitRows(s));
    forall t, id | t in x'.sessions && id in x'.sessions[t].base ensures FreshRow(x'.durable, x'.sessions[t], id) {
      RowFacts(x, s, id);
      if id in l.rows {
        LeadsSomewhere(l.pending, id, Start(l, id), l.rows[id]);
      }
    }
  }

  /** If no two sessions ever have the same row, the trail stays whole. */
  lemma {:induction false} OneSessionPerItemKeepsTrail(ops: seq<SharedOp>)
    requires AlwaysOneAtATime(NO_SESSIONS, ops)
    ensures RowsFresh(RunShared(NO_SESSIONS, ops)) && NoStaleCommit(NO_SESSIONS, ops)
    ensures Consistent(RunShared(NO_SESSIONS, ops).durable)
  {
    hide SharedOk, OneAtATime, Consistent;
    TrailIntactIff(ops);
    if ops != [] {
      var earlier, op := ops[..|ops| - 1], ops[|ops| - 1];
      OneSessionPerItemKeepsTrail(earlier);
      TrailIntactIff(earlier);
      var x := RunShared(NO_SESSIONS, earlier);
      OneAtATimeStaysFresh(x, op);
      assert FreshCommit(x, op) by { FreshRowsCommitFresh(x, op); }
    }
  }

  lemma FreshRowsCommitFresh(x: Shared, op: SharedOp)
    requires RowsFresh(x)
    ensures FreshCommit(x, op)
  {
  }

  lemma OneMoreOp(x: Shared, ops: seq<SharedOp>, op: SharedOp) returns (ops': seq<SharedOp>)
    ensures ops' == ops + [op] && RunShared(x, ops') == ApplyShared(RunShared(x, ops), op)
  {
    ops' := ops + [op];
    assert ops'[..|ops|] == ops;
  }

  /** As long as no commit was stale, a durable DELETING was reached through the whole archive path. */
  lemma DeletingWasEarnedAcrossSessions(ops: seq<SharedOp>, id: ItemId)
    requires NoStaleCommit(NO_SESSIONS, ops)
    requires var d := RunShared(NO_SESSIONS, ops).durable; id in d.rows && d.rows[id] == DELETING
    ensures Stutterless(SinceQueued(Visited(RunShared(NO_SESSIONS, ops).durable.events, id))) == FromQueuedTo(17)
  {
    TrailIntactIff(ops);
    var d := RunShared(NO_SESSIONS, ops).durable;
    UnbrokenIsWalk(d.events, id, DELETING);
    NothingSkipped(Visited(d.events, id));
  }

  // ----- A run that breaks it -----

  const SAVED := Event(7, DISCOVERED, ELIGIBLE)
  const CHANGED := Event(7, ELIGIBLE, SourceChanged)
  const REQUEUED := Event(7, ELIGIBLE, QUEUED)

  lemma FirstMove() returns (ops: seq<SharedOp>)
    ensures var x := RunShared(NO_SESSIONS, ops);
            && x.durable == Tables(map[], []) && x.sessions.Keys == {0}
            && LocalOf(x, 0) == Local(map[7 := ELIGIBLE], map[], [SAVED])
  {
    assert RunShared(NO_SESSIONS, []) == NO_SESSIONS;
    hide RunShared;
    ops := OneMoreOp(NO_SESSIONS, [], InsertRow(0, 7));
    assert LocalOf(RunShared(NO_SESSIONS, ops), 0) == Local(map[7 := DISCOVERED], map[], []);
    ops := OneMoreOp(NO_SESSIONS, ops, MoveRow(0, 7, ELIGIBLE));
    var l := LocalOf(RunShared(NO_SESSIONS, ops), 0);
    assert l.rows == map[7 := ELIGIBLE] && l.pending == [SAVED];
  }

  lemma FirstSession() returns (ops: seq<SharedOp>)
    ensures var x := RunShared(NO_SESSIONS, ops);
            && x.durable == Tables(map[7 := ELIGIBLE], [SAVED]) && x.sessions.Keys == {0}
            && LocalOf(x, 0) == Local(map[7 := ELIGIBLE], map[7 := ELIGIBLE], [])
  {
    ops := FirstMove();
    hide RunShared;
    var l := Local(map[7 := ELIGIBLE], map[], [SAVED]);
    ops := OneMoreOp(NO_SESSIONS, ops, CommitRows(0));
    assert Merged(Tables(map[], []), l) == Tables(map[7 := ELIGIBLE], [SAVED]);
  }

  lemma SecondSession() returns (ops: seq<SharedOp>)
    ensures var x := RunShared(NO_SESSIONS, ops);
            && x.durable == Tables(map[7 := SourceChanged], [SAVED, CHANGED])
            && LocalOf(x, 0) == Local(map[7 := ELIGIBLE], map[7 := ELIGIBLE], [])
  {
    ops := FirstSession();
    hide RunShared;
    ops := OneMoreOp(NO_SESSIONS, ops, LoadRow(1, 7));
    ops := OneMoreOp(NO_SESSIONS, ops, MoveRow(1, 7, SourceChanged));
    var x := RunShared(NO_SESSIONS, ops);
    var l := Local(map[7 := SourceChanged], map[7 := ELIGIBLE], [CHANGED]);
    assert x.durable == Tables(map[7 := ELIGIBLE], [SAVED]) && LocalOf(x, 1) == l;
    assert Changed(l.pending, 7) by { assert l.pending[0] == CHANGED; }
    ops := OneMoreOp(NO_SESSIONS, ops, CommitRows(1));
    assert Merged(Tables(map[7 := ELIGIBLE], [SAVED]), l) == Tables(map[7 := SourceChanged], [SAVED, CHANGED]);
  }

  /** A run that breaks it: one session has an eligible item loaded, another commits SOURCE_CHANGED for it,
      and the first queues it. */
  lemma OverlapBreaksTheTrail() returns (ops: seq<SharedOp>)
    ensures var d := RunShared(NO_SESSIONS, ops).durable;
            d == Tables(map[7 := QUEUED], [SAVED, CHANGED, REQUEUED]) && !Consistent(d)
  {
    ops := SecondSession();
    hide RunShared;
    ops := OneMoreOp(NO_SESSIONS, ops, MoveRow(0, 7, QUEUED));
    var x := RunShared(NO_SESSIONS, ops);
    var l := Local(map[7 := QUEUED], map[7 := ELIGIBLE], [REQUEUED]);
    assert x.durable == Tables(map[7 := SourceChanged], [SAVED, CHANGED]) && LocalOf(x, 0) == l;
    assert Changed(l.pending, 7) by { assert l.pending[0] == REQUEUED; }
    ops := OneMoreOp(NO_SESSIONS, ops, CommitRows(0));
    var d := Merged(x.durable, l);
    assert d == Tables(map[7 := QUEUED], [SAVED, CHANGED, REQUEUED]);
    assert d.events[..2] == [SAVED, CHANGED];
    assert !Unbroken(d.events[..2], 7, ELIGIBLE);
    assert !Unbroken(d.events, 7, QUEUED);
  }
}
