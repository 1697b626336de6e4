/** Uploads against the requests that made them: over any run, what is sealed, acknowledged or given up is told
    from the events alone (src/mnema/file_provider/service.py, src/mnema/file_provider/api.py). */
module UploadHistory {
  import opened Basics
  import opened States
  import opened Upload

  /** Event k is the request that created the upload; a later one for the same upload is refused. */
  predicate CreatedBy(events: seq<Event>, k: nat, u: UploadId) {
    && k < |events| && events[k].Create? && events[k].u == u
    && forall j :: 0 <= j < k ==> !(events[j].Create? && events[j].u == u)
  }

  ghost predicate NotCreated(events: seq<Event>, u: UploadId) {
    forall k: nat :: !CreatedBy(events, k, u)
  }

  predicate SameRequest(s: Slot, e: Event)
    requires e.Create?
  {
    s.expectedSize == e.size && s.declared == e.declared && s.expiresAt == e.expiresAt
  }

  lemma ApplyKeepsRequest(h: Hash, now: int, s: Slot, step: SlotStep)
    ensures var s' := Apply(h, now, s, step);
            s'.expectedSize == s.expectedSize && s'.declared == s.declared && s'.expiresAt == s.expiresAt
  {
  }

  lemma StepKeepsRequest(h: Hash, w: World, e: Event, u: UploadId)
    requires u in w.slots
    ensures u in Step(h, w, e).slots
    ensures var s, s' := w.slots[u], Step(h, w, e).slots[u];
            s'.expectedSize == s.expectedSize && s'.declared == s.declared && s'.expiresAt == s.expiresAt
  {
    hide Apply;
    if e.On? && e.u == u {
      ApplyKeepsRequest(h, w.now, w.slots[u], e.step);
    }
  }

  lemma NewFromCreate(h: Hash, w: World, e: Event, u: UploadId)
    requires u !in w.slots
    ensures u in Step(h, w, e).slots <==> e.Create? && e.u == u
    ensures e.Create? && e.u == u ==> SameRequest(Step(h, w, e).slots[u], e)
  {
    hide Apply;
  }

  /** An upload exists exactly when it was created, with the size, digest and expiry of that request. */
  lemma {:induction false} RowsKeepTheirRequest(h: Hash, events: seq<Event>, u: UploadId)
    ensures u in Run(h, EMPTY_WORLD, events).slots <==> exists k: nat :: CreatedBy(events, k, u)
    ensures forall k: nat :: CreatedBy(events, k, u) ==>
              u in Run(h, EMPTY_WORLD, events).slots && SameRequest(Run(h, EMPTY_WORLD, events).slots[u], events[k])
  {
    hide Step;
    if events != [] {
      var n := |events| - 1;
      var w := Run(h, EMPTY_WORLD, events[..n]);
      RowsKeepTheirRequest(h, events[..n], u);
      CreatedInPrefix(events, u);
      if u in w.slots {
        StepKeepsRequest(h, w, events[n], u);
        var k: nat :| CreatedBy(events[..n], k, u);
        assert CreatedBy(events, k, u);
      } else {
        NewFromCreate(h, w, events[n], u);
        if events[n].Create? && events[n].u == u {
          OnlyNowCreated(events, u);
        }
      }
    }
  }

  lemma CreatedInPrefix(events: seq<Event>, u: UploadId)
    requires events != []
    ensures forall k: nat :: k < |events| - 1 ==> (CreatedBy(events, k, u) <==> CreatedBy(events[..|events| - 1], k, u))
    ensures forall k: nat :: CreatedBy(events[..|events| - 1], k, u) ==> events[..|events| - 1][k] == events[k]
    ensures CreatedBy(events, |events| - 1, u) ==> NotCreated(events[..|events| - 1], u)
  {
  }

  lemma OnlyNowCreated(events: seq<Event>, u: UploadId)
    requires events != [] && events[|events| - 1].Create? && events[|events| - 1].u == u
    requires NotCreated(events[..|events| - 1], u)
    ensures CreatedBy(events, |events| - 1, u)
  {
    var n := |events| - 1;
    if j :| 0 <= j < n && events[j].Create? && events[j].u == u {
      FirstCreated(events[..n], u, j);
    }
  }

  lemma {:induction false} FirstCreated(events: seq<Event>, u: UploadId, j: nat)
    requires j < |events| && events[j].Create? && events[j].u == u
    ensures exists k: nat :: CreatedBy(events, k, u)
    decreases j
  {
    if i :| 0 <= i < j && events[i].Create? && events[i].u == u {
      FirstCreated(events, u, i);
    } else {
      assert CreatedBy(events, j, u);
    }
  }

  /** What is sealed is what the creating request announced: as many bytes, and of the digest it declared, if it
      declared one. */
  lemma SealedIsWhatWasAnnounced(h: Hash, events: seq<Event>, k: nat, u: UploadId)
    requires CreatedBy(events, k, u)
    ensures u in Run(h, EMPTY_WORLD, events).slots
    ensures var s := Run(h, EMPTY_WORLD, events).slots[u];
            s.status.Sealed? ==>
              && |s.accepted| == events[k].size
              && s.sha == Some(h(s.accepted))
              && (events[k].declared.Some? ==> h(s.accepted) == events[k].declared.value)
              && (s.itemState == LOCAL_STAGED ==> s.staged == Some(s.accepted))
  {
    hide Run;
    RowsKeepTheirRequest(h, events, u);
    if Run(h, EMPTY_WORLD, events).slots[u].status.Sealed? {
      SealedIsWhatWasSent(h, events, u);
    }
  }

  // ----- Acknowledged bytes -----

  /** The bytes of the chunks that arrived for an upload, in order. */
  function ChunksOf(events: seq<Event>, u: UploadId): Bytes {
    if events == [] then []
    else
      var e := events[|events| - 1];
      ChunksOf(events[..|events| - 1], u) + if e.On? && e.u == u && e.step.Chunk? then e.step.chunk else []
  }

  /** A request that is writing began at event j, at the recorded offset and before the upload expired, and has
      written every chunk that arrived since. */
  ghost predicate BegunAt(h: Hash, events: seq<Event>, j: nat, u: UploadId, offset: nat, body: Bytes, expiresAt: int) {
    && j < |events| && events[j] == On(u, BeginAppend(offset))
    && Run(h, EMPTY_WORLD, events[..j]).now < expiresAt
    && body == ChunksOf(events[j + 1..], u)
  }

  lemma BegunOneMore(h: Hash, events: seq<Event>, e: Event, j: nat, u: UploadId, offset: nat, body: Bytes, expiresAt: int)
    requires BegunAt(h, events, j, u, offset, body, expiresAt)
    ensures BegunAt(h, events + [e], j, u, offset, body + (if e.On? && e.u == u && e.step.Chunk? then e.step.chunk else []),
                    expiresAt)
  {
    hide Run;
    assert (events + [e])[..j] == events[..j];
    assert (events + [e])[j + 1..] == events[j + 1..] + [e];
    assert (events[j + 1..] + [e])[..|events[j + 1..]|] == events[j + 1..];
  }

  /** How a step leaves a request writing. */
  lemma StillAppending(h: Hash, w: World, e: Event, u: UploadId)
    requires u in w.slots && SlotOk(h, w.slots[u], w.now)
    requires u in Step(h, w, e).slots && Step(h, w, e).slots[u].flight.Appending?
    ensures var f, f' := w.slots[u].flight, Step(h, w, e).slots[u].flight;
            if f.Appending? then
              f'.offset == f.offset
              && f'.body == f.body + (if e.On? && e.u == u && e.step.Chunk? then e.step.chunk else [])
            else
              e == On(u, BeginAppend(f'.offset)) && f'.body == [] && w.now < w.slots[u].expiresAt
              && f'.offset == w.slots[u].receivedSize
  {
  }

  lemma {:induction false} WritersBeganInTime(h: Hash, events: seq<Event>, u: UploadId)
    requires u in Run(h, EMPTY_WORLD, events).slots && Run(h, EMPTY_WORLD, events).slots[u].flight.Appending?
    ensures var s := Run(h, EMPTY_WORLD, events).slots[u];
            exists j: nat :: BegunAt(h, events, j, u, s.flight.offset, s.flight.body, s.expiresAt)
  {
    hide Step, SlotOk;
    if events != [] {
      var n, e := |events| - 1, events[|events| - 1];
      var w := Run(h, EMPTY_WORLD, events[..n]);
      assert events == events[..n] + [e];
      if u !in w.slots {
        NewIsNotAppending(h, w, e, u);
      } else {
        UploadsStayCoupled(h, events[..n]);
        StepKeepsRequest(h, w, e, u);
        StillAppending(h, w, e, u);
        if w.slots[u].flight.Appending? {
          WritersBeganInTime(h, events[..n], u);
          var f := w.slots[u].flight;
          var j: nat :| BegunAt(h, events[..n], j, u, f.offset, f.body, w.slots[u].expiresAt);
          BegunOneMore(h, events[..n], e, j, u, f.offset, f.body, w.slots[u].expiresAt);
        } else {
          assert events[n + 1..] == [];
          assert BegunAt(h, events, n, u, w.slots[u].receivedSize, [], w.slots[u].expiresAt);
        }
      }
    }
  }

  lemma NewIsNotAppending(h: Hash, w: World, e: Event, u: UploadId)
    requires u !in w.slots && u in Step(h, w, e).slots
    ensures !Step(h, w, e).slots[u].flight.Appending?
  {
    hide Apply;
  }

  lemma OnlyEndAcknowledges(h: Hash, w: World, e: Event, u: UploadId)
    requires u in w.slots && u in Step(h, w, e).slots && Step(h, w, e).slots[u].accepted != w.slots[u].accepted
    ensures e == On(u, EndAppend) && w.slots[u].flight.Appending?
    ensures Step(h, w, e).slots[u].accepted == w.slots[u].accepted + w.slots[u].flight.body
  {
  }

  /** Bytes are acknowledged only at the end of a request that began at the recorded offset before the upload
      expired, and they are exactly the chunks that arrived during it. */
  lemma AcknowledgedAreTheChunks(h: Hash, events: seq<Event>, e: Event, k: nat, u: UploadId)
    requires CreatedBy(events, k, u) && u in Run(h, EMPTY_WORLD, events).slots
    requires var w := Run(h, EMPTY_WORLD, events);
             u in Step(h, w, e).slots && Step(h, w, e).slots[u].accepted != w.slots[u].accepted
    ensures e == On(u, EndAppend)
    ensures var before := Run(h, EMPTY_WORLD, events).slots[u].accepted;
            exists j: nat ::
              && j < |events| && events[j] == On(u, BeginAppend(|before|))
              && Run(h, EMPTY_WORLD, events[..j]).now < events[k].expiresAt
              && Step(h, Run(h, EMPTY_WORLD, events), e).slots[u].accepted == before + ChunksOf(events[j + 1..], u)
  {
    hide Run, Step, SlotOk;
    var w := Run(h, EMPTY_WORLD, events);
    RowsKeepTheirRequest(h, events, u);
    OnlyEndAcknowledges(h, w, e, u);
    WritersBeganInTime(h, events, u);
    UploadsStayCoupled(h, events);
    AppendingAtTheEnd(h, w.slots[u], w.now);
    var s := w.slots[u];
    var j: nat :| BegunAt(h, events, j, u, s.flight.offset, s.flight.body, s.expiresAt);
    assert events[j] == On(u, BeginAppend(|s.accepted|));
  }

  lemma AppendingAtTheEnd(h: Hash, s: Slot, now: int)
    requires SlotOk(h, s, now) && s.flight.Appending?
    ensures s.flight.offset == |s.accepted|
  {
  }

  // ----- Giving up -----

  /** An open upload is failed, and its item set aside for review, only once it has expired; and until then its
      file stays. */
  lemma GivenUpOnlyAfterExpiry(h: Hash, events: seq<Event>, e: Event, k: nat, u: UploadId)
    requires CreatedBy(events, k, u) && u in Run(h, EMPTY_WORLD, events).slots
    requires Run(h, EMPTY_WORLD, events).slots[u].status.Open?
    ensures var w := Run(h, EMPTY_WORLD, events);
            var s, s' := w.slots[u], Step(h, w, e).slots[u];
            && (s'.status.Failed? ==> events[k].expiresAt <= w.now && s'.itemState == ManualReview)
            && (s.file.Some? && s'.file.None? ==> events[k].expiresAt <= w.now)
  {
    hide Run;
    RowsKeepTheirRequest(h, events, u);
    UploadsStayCoupled(h, events);
    var w := Run(h, EMPTY_WORLD, events);
    StepKeepsRequest(h, w, e, u);
    GiveUpStep(h, w, e, u);
  }

  lemma GiveUpStep(h: Hash, w: World, e: Event, u: UploadId)
    requires u in w.slots && u in Step(h, w, e).slots && SlotOk(h, w.slots[u], w.now) && w.slots[u].status.Open?
    ensures var s, s' := w.slots[u], Step(h, w, e).slots[u];
            && (s'.status.Failed? ==> s.expiresAt <= w.now && s'.itemState == ManualReview)
            && (s.file.Some? && s'.file.None? ==> s.expiresAt <= w.now)
  {
  }
}
