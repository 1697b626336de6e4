/** The two ends of the change journal as objects: the server that answers GET /v1/changes and the
    File Provider enumerator on the phone (src/mnema/file_provider/api.py,
    ios/MnemaFileProvider/FileProviderEnumerator.swift). */
module ReplicaSync {
  import opened Basics
  import opened Replica

  /** The next rows of the journal, as many as fit; each with the item as it is now, and the word
      that more follow exactly when they do. */
  predicate ShowsNext(s: Server, from: nat, size: nat, r: Response)
    requires r.Page?
  {
    && |r.changes| == (if from >= |s.journal| then 0 else if |s.journal| - from < size then |s.journal| - from else size)
    && r.next == Cursor(s.generation, from + |r.changes|)
    && (r.more <==> from + |r.changes| < |s.journal|)
    && forall k :: 0 <= k < |r.changes| ==>
         && r.changes[k].id == s.journal[from + k].id && r.changes[k].operation == s.journal[from + k].operation
         && r.changes[k].item == if r.changes[k].id in s.items then Some(s.items[r.changes[k].id]) else None
  }

  lemma ShowingNextAnswers(s: Server, cursor: Option<Cursor>, limit: int, r: Response)
    requires cursor.Some? ==> cursor.value.generation == s.generation
    requires r.Page? && ShowsNext(s, if cursor.Some? then cursor.value.sequence else 0, Clamped(limit), r)
    ensures r == Answer(s, cursor, limit)
  {
    var from := if cursor.Some? then cursor.value.sequence else 0;
    var c := Entries(s, from, Until(s, from, limit));
    assert Until(s, from, limit) == from + |r.changes| && |c| == |r.changes|;
    forall k | 0 <= k < |c| ensures r.changes[k] == c[k] {
      assert c[k] == Entry(s.journal[from + k].id, s.journal[from + k].operation, Lookup(s.items, s.journal[from + k].id));
    }
  }

  class ChangeServer {
    var items: map<ItemId, Payload>
    var journal: seq<Change>
    const generation: Generation

    constructor (generation: Generation)
      ensures this.generation == generation && State() == Server(map[], [], generation)
    {
      items := map[];
      journal := [];
      this.generation := generation;
    }

    function State(): Server reads this {
      Server(items, journal, generation)
    }

    /** Appends the change and stamps the item with its sequence. */
    method RecordChange(id: ItemId, operation: Operation) returns (sequence: nat)
      modifies this
      ensures State() == Recorded(old(State()), id, operation)
      ensures sequence == |journal| && sequence > old(|journal|)
    {
      journal := journal + [Change(id, operation)];
      sequence := |journal|;
      if id in items {
        items := items[id := items[id].(metadataVersion := sequence)];
      }
    }

    method WriteItem(id: ItemId, details: string)
      modifies this
      ensures State() == Written(old(State()), id, details)
      ensures journal == old(journal) + [Change(id, Upsert)]
      ensures items == old(items)[id := Payload(details, |journal|)]
    {
      items := items[id := Payload(details, 1)];
      var _ := RecordChange(id, Upsert);
    }

    method CleanupItem(id: ItemId)
      requires id != ROOT
      modifies this
      ensures State() == Erased(old(State()), id)
      ensures journal == old(journal) + (if id in old(items) then [Change(id, Delete)] else [])
      ensures items == old(items) - {id}
    {
      if id !in items {
        return;
      }
      var _ := RecordChange(id, Delete);
      items := items - {id};
    }

    /** Reads one row more than the page holds to learn whether more follow, then pairs every row
        with the item as it is now. */
    method Changes(cursor: Option<Cursor>, limit: int) returns (r: Response)
      ensures r == Answer(State(), cursor, limit)
      ensures r.ResetRequired? <==> cursor.Some? && cursor.value.generation != generation
      ensures r.ResetRequired? ==> r.cursor == Cursor(generation, 0)
      ensures r.Page? ==> ShowsNext(State(), if cursor.Some? then cursor.value.sequence else 0, Clamped(limit), r)
    {
      hide Last, Entries, Until;
      var size := Clamped(limit);
      var sequence := 0;
      if cursor.Some? {
        if cursor.value.generation != generation {
          return ResetRequired(Cursor(generation, 0));
        }
        sequence := cursor.value.sequence;
      }
      var rows := if sequence >= |journal| then [] else journal[sequence..];
      if |rows| > size + 1 {
        rows := rows[..size + 1];
      }
      var more := |rows| > size;
      if more {
        rows := rows[..size];
      }
      var payload: seq<Entry> := [];
      for k := 0 to |rows|
        invariant |payload| == k
        invariant forall j :: 0 <= j < k ==> payload[j] == Entry(rows[j].id, rows[j].operation, Lookup(items, rows[j].id))
      {
        var changed := if rows[k].id in items then Some(items[rows[k].id]) else None;
        payload := payload + [Entry(rows[k].id, rows[k].operation, changed)];
      }
      var last := if |rows| > 0 then sequence + |rows| else sequence;
      r := Page(payload, Cursor(generation, last), more);
      ShowingNextAnswers(State(), cursor, limit, r);
    }
  }

  /** The updates of a page in order: not a delete, and still carrying an item. */
  function Updated(c: seq<Entry>): seq<(ItemId, Payload)> {
    if c == [] then []
    else
      var e := c[|c| - 1];
      Updated(c[..|c| - 1]) + if e.operation.Upsert? && e.item.Some? then [(e.id, e.item.value)] else []
  }

  function Reported(replica: map<ItemId, Payload>, updates: seq<(ItemId, Payload)>): map<ItemId, Payload> {
    if updates == [] then replica
    else
      var u := updates[|updates| - 1];
      Reported(replica, updates[..|updates| - 1])[u.0 := u.1]
  }

  lemma {:induction false} ReportedIsCollected(replica: map<ItemId, Payload>, c: seq<Entry>)
    ensures Reported(replica, Updated(c)) == replica + Collected(c, false)
  {
    if c != [] {
      ReportedIsCollected(replica, c[..|c| - 1]);
      var earlier := Updated(c[..|c| - 1]);
      assert Updated(c) == earlier || Updated(c)[..|earlier|] == earlier;
    }
  }

  /** An item upserted on the page is as the table has it now, unless it is gone from the table; one deleted
      on the page and not upserted goes, the root excepted; every other item stays as it was. */
  ghost predicate ShowsAfter(s: Server, from: nat, until: nat, before: map<ItemId, Payload>,
                             after: map<ItemId, Payload>) {
    forall id :: Lookup(after, id) ==
      (if ChangedBy(s.journal, from, until, id, Upsert) && id in s.items then Some(s.items[id])
       else if ChangedBy(s.journal, from, until, id, Delete) && id != ROOT then None
       else Lookup(before, id))
  }

  /** The items changed so far, those still in the table, as the table has them now. */
  ghost predicate ShowsChanged(s: Server, until: nat, after: map<ItemId, Payload>) {
    forall id :: Lookup(after, id) == if Changed(s.journal, 0, until, id) then Lookup(s.items, id) else None
  }

  lemma FirstPageShows(s: Server, limit: int)
    ensures ShowsChanged(s, Until(s, 0, limit), Collected(Entries(s, 0, Until(s, 0, limit)), true))
  {
    hide Collected, Removals, Changed, Listed;
    forall id ensures Lookup(Collected(Entries(s, 0, Until(s, 0, limit)), true), id)
                      == if Changed(s.journal, 0, Until(s, 0, limit), id) then Lookup(s.items, id) else None
    {
      EntriesListChanges(s, 0, Until(s, 0, limit), id);
      CollectedFromItems(Entries(s, 0, Until(s, 0, limit)), s.items, true, id);
    }
  }

  lemma PageShows(s: Server, from: nat, limit: int, replica: map<ItemId, Payload>)
    requires from <= |s.journal|
    ensures var until := Until(s, from, limit);
            ShowsAfter(s, from, until, replica, Merged(replica, Entries(s, from, until)))
  {
    hide Collected, Removals, ChangedBy, Listed;
    var until := Until(s, from, limit);
    var after := Merged(replica, Entries(s, from, until));
    forall id ensures Lookup(after, id) ==
        (if ChangedBy(s.journal, from, until, id, Upsert) && id in s.items then Some(s.items[id])
         else if ChangedBy(s.journal, from, until, id, Delete) && id != ROOT then None
         else Lookup(replica, id))
    {
      EntriesListChanges(s, from, until, id);
      CollectedFromItems(Entries(s, from, until), s.items, false, id);
    }
  }

  datatype Outcome = Finished(moreComing: bool) | SyncAnchorExpired

  /** The enumerator with what its observer has been told so far; the anchor outlives it. */
  class Enumerator {
    const server: ChangeServer
    ghost const used: set<Generation>
    var replica: map<ItemId, Payload>
    var anchor: Option<Cursor>

    constructor (server: ChangeServer, replica: map<ItemId, Payload>, anchor: Option<Cursor>,
                 ghost used: set<Generation>)
      ensures this.server == server && this.used == used
      ensures this.replica == replica && this.anchor == anchor
    {
      this.server := server;
      this.used := used;
      this.replica := replica;
      this.anchor := anchor;
    }

    ghost function Joint(): World reads this, server {
      World(server.State(), used, replica, anchor, None)
    }

    /** Fills a dictionary from the first page; it becomes the replica, and the anchor follows. */
    method EnumerateItems(limit: int)
      requires Inv(Joint())
      modifies this
      ensures Joint() == Received(Step(old(Joint()), AskItems(limit)))
      ensures Inv(Joint())
      ensures anchor.Some? && anchor.value.generation == server.generation
      ensures anchor.value.sequence == if |server.journal| < Clamped(limit) then |server.journal| else Clamped(limit)
      ensures ShowsChanged(server.State(), anchor.value.sequence, replica)
    {
      hide Last, Inv, Entries, Until, ShowsChanged;
      ghost var start := Joint();
      FirstPageShows(server.State(), limit);
      var response := server.Changes(None, limit);
      var latest: map<ItemId, Payload> := map[];
      for k := 0 to |response.changes|
        invariant latest == Collected(response.changes[..k], true)
      {
        assert response.changes[..k + 1][..k] == response.changes[..k];
        var change := response.changes[k];
        if change.item.Some? {
          latest := latest[change.id := change.item.value];
        }
      }
      assert response.changes[..|response.changes|] == response.changes;
      replica := latest;
      anchor := Some(response.next);
      StepKeepsInv(start, AskItems(limit));
      ReceiveKeepsInv(Step(start, AskItems(limit)));
    }

    /** Reports the deletions of a page, then its updates, and only then moves the anchor. */
    method EnumerateChanges(limit: int) returns (outcome: Outcome)
      requires anchor.Some? && Inv(Joint())
      modifies this
      ensures Joint() == Received(Step(old(Joint()), AskChanges(limit)))
      ensures Inv(Joint())
      ensures outcome.SyncAnchorExpired? <==> old(anchor).value.generation != server.generation
      ensures outcome.SyncAnchorExpired? <==> anchor.None?
      ensures outcome.Finished? ==> (outcome.moreComing <==> anchor.value.sequence < |server.journal|)
      ensures outcome.Finished? ==> anchor.value.generation == server.generation
                                    && old(anchor).value.sequence <= anchor.value.sequence <= |server.journal|
      ensures outcome.Finished? ==>
                ShowsAfter(server.State(), old(anchor).value.sequence, anchor.value.sequence, old(replica), replica)
    {
      hide Last, Entries, ServerOk, Following, Removals, ShowsAfter;
      ghost var start := Joint();
      if anchor.value.sequence <= |server.journal| {
        PageShows(server.State(), anchor.value.sequence, limit, replica);
      }
      StepKeepsInv(start, AskChanges(limit));
      ReceiveKeepsInv(Step(start, AskChanges(limit)));
      var response := server.Changes(anchor, limit);
      if response.ResetRequired? {
        anchor := None;
        return SyncAnchorExpired;
      }
      replica := replica - Removals(response.changes);
      var updated := Updated(response.changes);
      ReportedIsCollected(replica, response.changes);
      replica := Reported(replica, updated);
      anchor := Some(response.next);
      outcome := Finished(response.more);
    }

    /** What the system does on a signal while the server is quiet: enumerate the items when there
        is no anchor, otherwise pull changes as long as more are announced. */
    method CatchUp(limit: int)
      requires Inv(Joint())
      modifies this
      ensures Inv(Joint()) && CaughtUp(Joint())
    {
      hide Last, Entries, ServerOk, Removals, Merged, Collected, Written, Recorded, Erased;
      var moreComing := true;
      while moreComing
        invariant Inv(Joint())
        invariant !moreComing ==> CaughtUp(Joint())
        decreases Distance(Joint()), moreComing
      {
        ghost var before := Joint();
        DistanceIsNat(before);
        if anchor.None? {
          EnumerateItems(limit);
        } else {
          var outcome := EnumerateChanges(limit);
          moreComing := outcome.SyncAnchorExpired? || outcome.moreComing;
        }
        ExchangeCloses(before, limit);
        if !moreComing {
          FollowingToTheEnd(server.State(), replica);
        }
      }
    }
  }
}
