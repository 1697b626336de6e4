/** The change journal and the replica that follows it: the server appends a change for every
    write of an item and serves pages that carry the current item, the client applies pages and
    advances its anchor (src/mnema/file_provider/service.py, src/mnema/file_provider/api.py,
    ios/MnemaFileProvider/FileProviderEnumerator.swift). */
module Replica {
  import opened Basics

  type ItemId = string
  type Generation = nat

  const ROOT: ItemId := "root"

  datatype Operation = Upsert | Delete

  /** A row of the journal; its sequence is one more than its index. */
  datatype Change = Change(id: ItemId, operation: Operation)

  /** What a page shows of an item: everything else it holds, and the sequence of its last change. */
  datatype Payload = Payload(details: string, metadataVersion: nat)

  datatype Server = Server(items: map<ItemId, Payload>, journal: seq<Change>, generation: Generation)

  datatype Cursor = Cursor(generation: Generation, sequence: nat)

  datatype Entry = Entry(id: ItemId, operation: Operation, item: Option<Payload>)

  datatype Response =
    | ResetRequired(cursor: Cursor)
    | Page(changes: seq<Entry>, next: Cursor, more: bool)

  function Lookup(items: map<ItemId, Payload>, id: ItemId): Option<Payload> {
    if id in items then Some(items[id]) else None
  }

  /** Sequence of the last change of an item, 0 when it has none. */
  function Last(journal: seq<Change>, id: ItemId): (s: nat)
    ensures s <= |journal|
    ensures s > 0 ==> journal[s - 1].id == id
  {
    if journal == [] then 0
    else if journal[|journal| - 1].id == id then |journal|
    else Last(journal[..|journal| - 1], id)
  }

  lemma {:induction false} LastIsLast(journal: seq<Change>, id: ItemId, k: nat)
    requires k < |journal| && journal[k].id == id
    ensures k < Last(journal, id)
  {
    var n := |journal| - 1;
    if journal[n].id != id {
      assert k < n && journal[..n][k] == journal[k];
      LastIsLast(journal[..n], id, k);
    }
  }

  lemma LastAppend(journal: seq<Change>, c: Change, id: ItemId)
    ensures Last(journal + [c], id) == if id == c.id then |journal| + 1 else Last(journal, id)
  {
    assert (journal + [c])[..|journal|] == journal;
  }

  // ---------------------------------------------------------------- server

  function Recorded(s: Server, id: ItemId, operation: Operation): Server {
    var journal := s.journal + [Change(id, operation)];
    s.(journal := journal,
       items := if id in s.items then s.items[id := s.items[id].(metadataVersion := |journal|)] else s.items)
  }

  /** Writes the item and records the change in the same transaction. */
  function Written(s: Server, id: ItemId, details: string): Server {
    Recorded(s.(items := s.items[id := Payload(details, 1)]), id, Upsert)
  }

  /** The one path that removes an item; the roots are out of its reach. */
  function Erased(s: Server, id: ItemId): Server {
    if id == ROOT || id !in s.items then s else Recorded(s, id, Delete).(items := s.items - {id})
  }

  function Clamped(limit: int): (n: nat)
    ensures 1 <= n <= 1000 && (n == limit || limit < n == 1 || limit > n == 1000)
  {
    if limit > 1000 then 1000 else if limit < 1 then 1 else limit
  }

  function Until(s: Server, from: nat, limit: int): (n: nat)
    ensures from <= n
  {
    if from >= |s.journal| then from
    else if from + Clamped(limit) <= |s.journal| then from + Clamped(limit)
    else |s.journal|
  }

  /** One entry for each journal row in the range, each carrying the item as it is now. */
  function Entries(s: Server, from: nat, until: nat): (c: seq<Entry>)
    requires from <= until
    ensures |c| == if until <= |s.journal| then until - from else 0
  {
    if until > |s.journal| then []
    else
      seq(until - from, k requires 0 <= k < until - from =>
        Entry(s.journal[from + k].id, s.journal[from + k].operation, Lookup(s.items, s.journal[from + k].id)))
  }

  function Answer(s: Server, cursor: Option<Cursor>, limit: int): Response {
    if cursor.Some? && cursor.value.generation != s.generation then ResetRequired(Cursor(s.generation, 0))
    else
      var from := if cursor.Some? then cursor.value.sequence else 0;
      var until := Until(s, from, limit);
      Page(Entries(s, from, until), Cursor(s.generation, until), |s.journal| > from + Clamped(limit))
  }

  /** An item is in the table exactly when its last change is an upsert, and its metadata version
      is the sequence of that change. */
  ghost predicate ServerOk(s: Server) {
    forall id {:trigger Last(s.journal, id)} :: Tracked(s, id)
  }

  predicate Tracked(s: Server, id: ItemId) {
    var n := Last(s.journal, id);
    && (id in s.items <==> n > 0 && s.journal[n - 1].operation.Upsert?)
    && (id in s.items ==> s.items[id].metadataVersion == n)
    && (id == ROOT && n > 0 ==> s.journal[n - 1].operation.Upsert?)
  }

  lemma EmptyServerOk(generation: Generation)
    ensures ServerOk(Server(map[], [], generation))
  {
    var s := Server(map[], [], generation);
    forall id ensures Tracked(s, id) {
      assert Last(s.journal, id) == 0;
    }
  }

  lemma WrittenKeepsServerOk(s: Server, id: ItemId, details: string)
    requires ServerOk(s)
    ensures ServerOk(Written(s, id, details))
  {
    hide Last;
    forall other ensures Tracked(Written(s, id, details), other) {
      LastAppend(s.journal, Change(id, Upsert), other);
      assert Tracked(s, other);
    }
  }

  lemma ErasedKeepsServerOk(s: Server, id: ItemId)
    requires ServerOk(s)
    ensures ServerOk(Erased(s, id))
  {
    hide Last;
    forall other ensures Tracked(Erased(s, id), other) {
      LastAppend(s.journal, Change(id, Delete), other);
      assert Tracked(s, other);
    }
  }

  // ---------------------------------------------------------------- client

  /** The dictionary filled from the entries that carry an item, in order; `all` also takes the
      entries of delete operations. */
  function Collected(c: seq<Entry>, all: bool): map<ItemId, Payload> {
    if c == [] then map[]
    else
      var m := Collected(c[..|c| - 1], all);
      var e := c[|c| - 1];
      if e.item.Some? && (all || e.operation.Upsert?) then m[e.id := e.item.value] else m
  }

  function Removals(c: seq<Entry>): set<ItemId> {
    set k | 0 <= k < |c| && c[k].operation.Delete? && c[k].id != ROOT :: c[k].id
  }

  /** Deletes first, then updates. */
  function Merged(replica: map<ItemId, Payload>, c: seq<Entry>): map<ItemId, Payload> {
    (replica - Removals(c)) + Collected(c, false)
  }

  predicate Listed(c: seq<Entry>, id: ItemId, all: bool) {
    exists k :: 0 <= k < |c| && c[k].id == id && (all || c[k].operation.Upsert?)
  }

  predicate ReadFrom(c: seq<Entry>, items: map<ItemId, Payload>) {
    forall k :: 0 <= k < |c| ==> c[k].item == Lookup(items, c[k].id)
  }

  lemma {:induction false} CollectedFromItems(c: seq<Entry>, items: map<ItemId, Payload>, all: bool, id: ItemId)
    requires ReadFrom(c, items)
    ensures Lookup(Collected(c, all), id) == if Listed(c, id, all) then Lookup(items, id) else None
  {
    if c != [] {
      var n := |c| - 1;
      CollectedFromItems(c[..n], items, all, id);
      assert forall k :: 0 <= k < n ==> c[..n][k] == c[k];
      if Listed(c, id, all) && !Listed(c[..n], id, all) {
        assert c[n].id == id;
      }
      if Listed(c[..n], id, all) {
        var k :| 0 <= k < n && c[..n][k].id == id && (all || c[..n][k].operation.Upsert?);
        assert c[k].id == id;
      }
    }
  }

  /** The item has a change with a sequence after `from` and up to `until`; of any kind, or of this one. */
  predicate Changed(journal: seq<Change>, from: nat, until: nat, id: ItemId) {
    exists k :: from <= k < until && k < |journal| && journal[k].id == id
  }

  predicate ChangedBy(journal: seq<Change>, from: nat, until: nat, id: ItemId, operation: Operation) {
    exists k :: from <= k < until && k < |journal| && journal[k] == Change(id, operation)
  }

  lemma EntriesListChanges(s: Server, from: nat, until: nat, id: ItemId)
    requires from <= until && (until <= |s.journal| || from == until)
    ensures var c := Entries(s, from, until);
            && (Listed(c, id, true) <==> Changed(s.journal, from, until, id))
            && (Listed(c, id, false) <==> ChangedBy(s.journal, from, until, id, Upsert))
            && (id in Removals(c) <==> ChangedBy(s.journal, from, until, id, Delete) && id != ROOT)
  {
    hide Last, Lookup;
    var c := Entries(s, from, until);
    assert forall k :: 0 <= k < |c| ==>
             c[k].id == s.journal[from + k].id && c[k].operation == s.journal[from + k].operation;
    ListingChanges(s.journal, from, until, c, id);
  }

  lemma ListingChanges(journal: seq<Change>, from: nat, until: nat, c: seq<Entry>, id: ItemId)
    requires from <= until && |c| == until - from && (c == [] || until <= |journal|)
    requires forall k :: 0 <= k < |c| ==> c[k].id == journal[from + k].id && c[k].operation == journal[from + k].operation
    ensures Listed(c, id, true) <==> Changed(journal, from, until, id)
    ensures Listed(c, id, false) <==> ChangedBy(journal, from, until, id, Upsert)
    ensures id in Removals(c) <==> ChangedBy(journal, from, until, id, Delete) && id != ROOT
  {
    forall k | from <= k < until && k < |journal| && journal[k].id == id
      ensures c[k - from].id == id && c[k - from].operation == journal[k].operation
    {
      assert c[k - from].id == journal[from + (k - from)].id;
    }
    forall k | 0 <= k < |c| && c[k].id == id
      ensures journal[from + k] == Change(id, c[k].operation)
    {
      assert c[k].operation == journal[from + k].operation;
    }
  }

  /** Everything the page says about an item whose last change lies within it or before it. */
  predicate SaysEnough(s: Server, from: nat, next: nat, c: seq<Entry>, all: bool, id: ItemId) {
    var n := Last(s.journal, id);
    && (n <= from ==> id !in Collected(c, all) && id !in Removals(c))
    && (from < n <= next ==> Lookup(Collected(c, all), id) == Lookup(s.items, id)
                             && (id in s.items || id in Removals(c)))
  }

  lemma EntriesSayEnough(s: Server, from: nat, limit: int, all: bool, id: ItemId)
    requires ServerOk(s) && from <= |s.journal|
    ensures var until := Until(s, from, limit);
            until <= |s.journal| && SaysEnough(s, from, until, Entries(s, from, until), all, id)
  {
    hide Last, Collected;
    var until := Until(s, from, limit);
    var c := Entries(s, from, until);
    var n := Last(s.journal, id);
    assert Tracked(s, id);
    CollectedFromItems(c, s.items, all, id);
    if n <= from {
      forall k | 0 <= k < |c| ensures c[k].id != id {
        if c[k].id == id {
          LastIsLast(s.journal, id, from + k);
        }
      }
    } else if n <= until {
      assert c[n - 1 - from] == Entry(id, s.journal[n - 1].operation, Lookup(s.items, id));
    }
  }

  // ---------------------------------------------------------------- the two parties together

  /** `inFlight` is the answer on its way to the client; `used` are the generations handed out so far. */
  datatype World = World(
    server: Server,
    used: set<Generation>,
    replica: map<ItemId, Payload>,
    anchor: Option<Cursor>,
    inFlight: Option<Delivery>)

  datatype Delivery = Delivery(response: Response, snapshot: bool, from: nat)

  datatype Event =
    | Write(id: ItemId, details: string)
    | Erase(id: ItemId)
    | Rebuild(generation: Generation)
    | AskItems(limit: int)
    | AskChanges(limit: int)
    | Receive
    | Lose

  function Received(w: World): World {
    match w.inFlight
    case None => w
    case Some(Delivery(ResetRequired(_), _, _)) => w.(anchor := None, inFlight := None)
    case Some(Delivery(Page(changes, next, _), snapshot, _)) =>
      w.(replica := if snapshot then Collected(changes, true) else Merged(w.replica, changes),
         anchor := Some(next), inFlight := None)
  }

  function Step(w: World, e: Event): World {
    match e
    case Write(id, details) => w.(server := Written(w.server, id, details))
    case Erase(id) => w.(server := Erased(w.server, id))
    case Rebuild(generation) =>
      if generation in w.used then w
      else w.(server := Server(map[], [], generation), used := w.used + {generation})
    case AskItems(limit) => w.(inFlight := Some(Delivery(Answer(w.server, None, limit), true, 0)))
    case AskChanges(limit) =>
      // with no anchor the system enumerates the working set instead
      if w.anchor.None? then w
      else w.(inFlight := Some(Delivery(Answer(w.server, w.anchor, limit), false, w.anchor.value.sequence)))
    case Receive => Received(w)
    case Lose => w.(inFlight := None)
  }

  function Run(w: World, events: seq<Event>): World {
    if events == [] then w else Step(Run(w, events[..|events| - 1]), events[|events| - 1])
  }

  function Installed(generation: Generation): World {
    World(Server(map[], [], generation), {generation}, map[], None, None)
  }

  /** Client and server agree on this item, or its last change is still ahead of the client. */
  predicate InStep(s: Server, replica: map<ItemId, Payload>, sequence: nat, id: ItemId) {
    Last(s.journal, id) <= sequence ==> Lookup(replica, id) == Lookup(s.items, id)
  }

  ghost predicate Following(s: Server, replica: map<ItemId, Payload>, sequence: nat) {
    && sequence <= |s.journal|
    && forall id {:trigger Last(s.journal, id)} :: InStep(s, replica, sequence, id)
  }

  ghost predicate PageHolds(s: Server, from: nat, p: Response, snapshot: bool)
    requires p.Page?
  {
    && from <= p.next.sequence <= |s.journal|
    && forall id {:trigger Last(s.journal, id)} :: SaysEnough(s, from, p.next.sequence, p.changes, snapshot, id)
  }

  ghost predicate DeliveryHolds(w: World, d: Delivery) {
    d.response.Page? ==>
      && d.response.next.generation in w.used
      && (d.snapshot ==> d.from == 0)
      && (!d.snapshot ==> w.anchor == Some(Cursor(d.response.next.generation, d.from)))
      && (d.response.next.generation == w.server.generation ==>
            PageHolds(w.server, d.from, d.response, d.snapshot))
  }

  ghost predicate AnchorHolds(w: World) {
    w.anchor.Some? ==>
      && w.anchor.value.generation in w.used
      && (w.anchor.value.generation == w.server.generation ==>
            Following(w.server, w.replica, w.anchor.value.sequence))
  }

  ghost predicate Inv(w: World) {
    && ServerOk(w.server)
    && w.server.generation in w.used
    && AnchorHolds(w)
    && (w.inFlight.Some? ==> DeliveryHolds(w, w.inFlight.value))
  }

  /** A server write moves the written item ahead of every cursor and touches no other item. */
  predicate OnlyAhead(s: Server, t: Server, id: ItemId) {
    && t.generation == s.generation
    && |s.journal| <= |t.journal|
    && (Last(t.journal, id) > |s.journal|
        || (Last(t.journal, id) == Last(s.journal, id) && Lookup(t.items, id) == Lookup(s.items, id)))
  }

  lemma ServerMoves(w: World, t: Server)
    requires Inv(w) && ServerOk(t)
    requires t.generation == w.server.generation
    requires |w.server.journal| <= |t.journal|
    requires forall id {:trigger Last(t.journal, id)} :: OnlyAhead(w.server, t, id)
    ensures Inv(w.(server := t))
  {
    var v := w.(server := t);
    if w.anchor.Some? && w.anchor.value.generation == w.server.generation {
      forall id ensures InStep(t, w.replica, w.anchor.value.sequence, id) {
        assert OnlyAhead(w.server, t, id);
        assert InStep(w.server, w.replica, w.anchor.value.sequence, id);
      }
      assert Following(t, w.replica, w.anchor.value.sequence);
    }
    if w.inFlight.Some? && w.inFlight.value.response.Page?
       && w.inFlight.value.response.next.generation == w.server.generation {
      var d := w.inFlight.value;
      forall id ensures SaysEnough(t, d.from, d.response.next.sequence, d.response.changes, d.snapshot, id) {
        assert OnlyAhead(w.server, t, id);
        assert SaysEnough(w.server, d.from, d.response.next.sequence, d.response.changes, d.snapshot, id);
      }
      assert PageHolds(t, d.from, d.response, d.snapshot);
    }
  }

  lemma WriteKeepsInv(w: World, id: ItemId, details: string)
    requires Inv(w)
    ensures Inv(w.(server := Written(w.server, id, details)))
  {
    var t := Written(w.server, id, details);
    WrittenKeepsServerOk(w.server, id, details);
    forall other ensures OnlyAhead(w.server, t, other) {
      LastAppend(w.server.journal, Change(id, Upsert), other);
    }
    ServerMoves(w, t);
  }

  lemma EraseKeepsInv(w: World, id: ItemId)
    requires Inv(w)
    ensures Inv(w.(server := Erased(w.server, id)))
  {
    var t := Erased(w.server, id);
    ErasedKeepsServerOk(w.server, id);
    forall other ensures OnlyAhead(w.server, t, other) {
      LastAppend(w.server.journal, Change(id, Delete), other);
    }
    ServerMoves(w, t);
  }

  lemma AnswerHolds(w: World, cursor: Option<Cursor>, limit: int, snapshot: bool)
    requires Inv(w)
    requires cursor == if snapshot then None else w.anchor
    requires !snapshot ==> w.anchor.Some?
    ensures var from := if snapshot then 0 else w.anchor.value.sequence;
            DeliveryHolds(w, Delivery(Answer(w.server, cursor, limit), snapshot, from))
  {
    var from := if snapshot then 0 else w.anchor.value.sequence;
    var r := Answer(w.server, cursor, limit);
    if r.Page? {
      assert from <= |w.server.journal|;
      forall id ensures SaysEnough(w.server, from, r.next.sequence, r.changes, snapshot, id) {
        EntriesSayEnough(w.server, from, limit, snapshot, id);
      }
      EntriesSayEnough(w.server, from, limit, snapshot, ROOT);
      assert PageHolds(w.server, from, r, snapshot);
    }
  }

  lemma ReceiveKeepsInv(w: World)
    requires Inv(w)
    ensures Inv(Received(w))
  {
    if w.inFlight.Some? && w.inFlight.value.response.Page?
       && w.inFlight.value.response.next.generation == w.server.generation {
      var d := w.inFlight.value;
      var v := Received(w);
      assert PageHolds(w.server, d.from, d.response, d.snapshot);
      forall id ensures InStep(w.server, v.replica, d.response.next.sequence, id) {
        assert SaysEnough(w.server, d.from, d.response.next.sequence, d.response.changes, d.snapshot, id);
        assert Tracked(w.server, id);
        if !d.snapshot {
          assert InStep(w.server, w.replica, d.from, id);
        }
      }
      assert Following(w.server, v.replica, d.response.next.sequence);
    }
  }

  lemma StepKeepsInv(w: World, e: Event)
    requires Inv(w)
    ensures Inv(Step(w, e))
  {
    match e
    case Write(id, details) => WriteKeepsInv(w, id, details);
    case Erase(id) => EraseKeepsInv(w, id);
    case Rebuild(generation) => EmptyServerOk(generation);
    case AskItems(limit) => AnswerHolds(w, None, limit, true);
    case AskChanges(limit) =>
      if w.anchor.Some? {
        AnswerHolds(w, w.anchor, limit, false);
      }
    case Receive => ReceiveKeepsInv(w);
    case Lose =>
  }

  lemma {:induction false} RunKeepsInv(w: World, events: seq<Event>)
    requires Inv(w)
    ensures Inv(Run(w, events))
  {
    hide Inv, Step;
    if events != [] {
      RunKeepsInv(w, events[..|events| - 1]);
      StepKeepsInv(Run(w, events[..|events| - 1]), events[|events| - 1]);
    }
  }

  lemma InstalledIsInv(generation: Generation)
    ensures Inv(Installed(generation))
  {
    EmptyServerOk(generation);
  }

  /** At every moment of every run, whatever the interleaving of writes, deletes, re-creations,
      requests, late or lost answers and rebuilt servers: an item whose last change is at or below
      the client's cursor is the same on both sides, present or absent. */
  lemma ReplicaAgreesUpToCursor(generation: Generation, events: seq<Event>, id: ItemId)
    requires var w := Run(Installed(generation), events);
             && w.anchor.Some? && w.anchor.value.generation == w.server.generation
             && Last(w.server.journal, id) <= w.anchor.value.sequence
    ensures var w := Run(Installed(generation), events);
            Lookup(w.replica, id) == Lookup(w.server.items, id)
  {
    InstalledIsInv(generation);
    RunKeepsInv(Installed(generation), events);
    var w := Run(Installed(generation), events);
    assert InStep(w.server, w.replica, w.anchor.value.sequence, id);
  }

  /** The metadata version an item is served with is the sequence of its last change, and a deleted
      item stays out of the table until it is written again. */
  lemma JournalTellsTheTable(generation: Generation, events: seq<Event>, id: ItemId)
    ensures Tracked(Run(Installed(generation), events).server, id)
  {
    InstalledIsInv(generation);
    RunKeepsInv(Installed(generation), events);
    var w := Run(Installed(generation), events);
    assert Last(w.server.journal, id) >= 0;
  }

  /** Event k is the last write of the item in the run. */
  predicate LastWrite(events: seq<Event>, k: nat, id: ItemId) {
    && k < |events| && events[k].Write? && events[k].id == id
    && forall j :: k < j < |events| ==> !(events[j].Write? && events[j].id == id)
  }

  lemma TableStep(w: World, e: Event, id: ItemId)
    requires id in Step(w, e).server.items
    ensures var t := Step(w, e).server.items;
            if e.Write? && e.id == id then t[id].details == e.details
            else id in w.server.items && t[id].details == w.server.items[id].details
  {
  }

  /** What the table holds of an item is what was written last. */
  lemma {:induction false} TableHoldsLastWrite(generation: Generation, events: seq<Event>, id: ItemId)
    requires id in Run(Installed(generation), events).server.items
    ensures exists k: nat :: LastWrite(events, k, id)
                             && Run(Installed(generation), events).server.items[id].details == events[k].details
  {
    hide Step;
    if events != [] {
      var n := |events| - 1;
      TableStep(Run(Installed(generation), events[..n]), events[n], id);
      if events[n].Write? && events[n].id == id {
        assert LastWrite(events, n, id);
      } else {
        TableHoldsLastWrite(generation, events[..n], id);
        var k: nat :| LastWrite(events[..n], k, id)
                      && Run(Installed(generation), events[..n]).server.items[id].details == events[..n][k].details;
        assert LastWrite(events, k, id);
      }
    }
  }

  /** Event k writes the item, and nothing after it takes it away: no removal, unless it is the root, and no
      rebuilt server. */
  ghost predicate WrittenToStay(generation: Generation, events: seq<Event>, k: nat, id: ItemId) {
    && k < |events| && events[k].Write? && events[k].id == id
    && forall j :: k < j < |events| ==> !TakesAway(Run(Installed(generation), events[..j]), events[j], id)
  }

  predicate TakesAway(w: World, e: Event, id: ItemId) {
    (e.Erase? && e.id == id && id != ROOT) || (e.Rebuild? && e.generation !in w.used)
  }

  lemma PresenceStep(w: World, e: Event, id: ItemId)
    ensures id in Step(w, e).server.items <==>
            (e.Write? && e.id == id) || (id in w.server.items && !TakesAway(w, e, id))
  {
  }

  /** The table holds exactly the items written and not taken away since. */
  lemma {:induction false} TableHoldsWhatWasWritten(generation: Generation, events: seq<Event>, id: ItemId)
    ensures id in Run(Installed(generation), events).server.items <==>
            exists k: nat :: WrittenToStay(generation, events, k, id)
  {
    hide Step, TakesAway;
    if events != [] {
      var n := |events| - 1;
      var w := Run(Installed(generation), events[..n]);
      PresenceStep(w, events[n], id);
      TableHoldsWhatWasWritten(generation, events[..n], id);
      forall k: nat | k < n ensures WrittenToStay(generation, events, k, id) <==>
                                    WrittenToStay(generation, events[..n], k, id) && !TakesAway(w, events[n], id)
      {
        OneMoreEvent(generation, events, k, id);
      }
      if events[n].Write? && events[n].id == id {
        assert WrittenToStay(generation, events, n, id);
      }
      if exists k: nat :: WrittenToStay(generation, events[..n], k, id) {
        var k: nat :| WrittenToStay(generation, events[..n], k, id);
        assert k < n;
      }
    }
  }

  lemma OneMoreEvent(generation: Generation, events: seq<Event>, k: nat, id: ItemId)
    requires events != [] && k < |events| - 1
    ensures var n := |events| - 1;
            WrittenToStay(generation, events, k, id) <==>
            WrittenToStay(generation, events[..n], k, id)
            && !TakesAway(Run(Installed(generation), events[..n]), events[n], id)
  {
    hide Run, TakesAway;
    var n := |events| - 1;
    assert forall j :: 0 <= j < n ==> events[..n][..j] == events[..j];
  }

  // ---------------------------------------------------------------- once writes stop

  /** One exchange with no write in between: enumerate when there is no anchor, otherwise pull changes. */
  function Exchange(w: World, limit: int): World {
    Received(Step(w, if w.anchor.None? then AskItems(limit) else AskChanges(limit)))
  }

  function Exchanges(w: World, limit: int, n: nat): World
    decreases n
  {
    if n == 0 then w else Exchanges(Exchange(w, limit), limit, n - 1)
  }

  /** How many exchanges can still be needed. */
  function Distance(w: World): int {
    if w.anchor.None? then |w.server.journal| + 1
    else if w.anchor.value.generation != w.server.generation then |w.server.journal| + 2
    else |w.server.journal| - w.anchor.value.sequence
  }

  lemma DistanceIsNat(w: World)
    requires Inv(w)
    ensures Distance(w) >= 0
  {
    if w.anchor.Some? && w.anchor.value.generation == w.server.generation {
      assert Following(w.server, w.replica, w.anchor.value.sequence);
    }
  }

  predicate CaughtUp(w: World) {
    && w.anchor == Some(Cursor(w.server.generation, |w.server.journal|))
    && w.replica == w.server.items
  }

  lemma FollowingToTheEnd(s: Server, replica: map<ItemId, Payload>)
    requires Following(s, replica, |s.journal|)
    ensures replica == s.items
  {
    forall id ensures Lookup(replica, id) == Lookup(s.items, id) {
      assert InStep(s, replica, |s.journal|, id);
    }
    assert forall id :: id in replica <==> Lookup(replica, id).Some?;
    assert forall id :: id in s.items <==> Lookup(s.items, id).Some?;
    assert replica.Keys == s.items.Keys;
    assert forall id :: id in replica ==> Lookup(replica, id) == Lookup(s.items, id);
  }

  lemma ExchangeCloses(w: World, limit: int)
    requires Inv(w)
    ensures var v := Exchange(w, limit);
            Inv(v) && v.server == w.server && (Distance(v) < Distance(w) || CaughtUp(v))
  {
    var e := if w.anchor.None? then AskItems(limit) else AskChanges(limit);
    StepKeepsInv(w, e);
    ReceiveKeepsInv(Step(w, e));
    var v := Exchange(w, limit);
    if v.anchor == Some(Cursor(w.server.generation, |w.server.journal|)) {
      FollowingToTheEnd(w.server, v.replica);
    }
  }

  /** Once writes stop, pulling pages comes to an end with the replica equal to the server's table,
      from any reachable state: mid-page, with a lost answer, or with the anchor of a rebuilt server. */
  lemma {:induction false} QuietPullsConverge(w: World, limit: int, n: nat)
    requires Inv(w)
    requires n > Distance(w)
    ensures var v := Exchanges(w, limit, n);
            v.server == w.server && CaughtUp(v)
    decreases n
  {
    ExchangeCloses(w, limit);
    var v := Exchange(w, limit);
    DistanceIsNat(w);
    DistanceIsNat(v);
    if n == 1 {
      assert Exchanges(w, limit, 1) == Exchanges(v, limit, 0) == v;
    } else {
      QuietPullsConverge(v, limit, n - 1);
    }
  }
}
