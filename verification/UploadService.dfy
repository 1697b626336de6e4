/** The upload endpoints and the startup passes over uploads as code. Each call is a run of
    the upload machine. */
module UploadService {
  import opened Basics
  import opened States
  import opened Upload
  import Audit

  /** Seconds a client has for its upload. */
  const DAY := 86400

  datatype AppendResult =
    | NotFound
    | Conflict
    | TooLarge
    | Disconnected
    | Accepted(offset: nat)

  function Flatten(chunks: seq<Bytes>): Bytes {
    if chunks == [] then [] else Flatten(chunks[..|chunks| - 1]) + chunks[|chunks| - 1]
  }

  function Content(file: Option<Bytes>): Bytes {
    if file.Some? then file.value else []
  }

  /** Same upload, except that an empty file may have come into being. */
  predicate Untouched(s: Slot, s': Slot) {
    s' == s.(file := s'.file) && Content(s'.file) == Content(s.file)
  }

  /** An upload with `body` written behind what the file held. */
  function Writing(s: Slot, before: Bytes, body: Bytes): Slot {
    s.(file := Some(before + body), flight := Appending(s.receivedSize, body))
  }

  /** An upload after a body was acknowledged: file, offset and record all grow by it. */
  function Acknowledged(s: Slot, body: Bytes): Slot {
    s.(file := Some(Content(s.file) + body), receivedSize := s.receivedSize + |body|, accepted := s.accepted + body)
  }

  lemma WritingStep(h: Hash, now: int, s: Slot, before: Bytes, body: Bytes, step: SlotStep)
    requires |before| == s.receivedSize && s.flight.NoRequest? && (step.Break? || step.Chunk?)
    ensures var fits := step.Chunk? && s.receivedSize + |body| + |step.chunk| <= s.expectedSize;
            Apply(h, now, Writing(s, before, body), step) ==
            if fits then Writing(s, before, body + step.chunk) else s.(file := Some(before))
  {
    assert Truncated(before + body, s.receivedSize) == before;
    if step.Chunk? {
      assert (before + body) + step.chunk == before + (body + step.chunk);
    }
  }

  lemma AppendFacts(h: Hash, s: Slot, now: int, offset: nat)
    requires SlotOk(h, s, now) && CanAppend(s, offset, now)
    ensures s.flight.NoRequest? && s.receivedSize == offset == |Content(s.file)| <= s.expectedSize
    ensures Apply(h, now, s, BeginAppend(offset)) == Writing(s, Content(s.file), [])
  {
    assert Content(s.file) + [] == Content(s.file);
  }

  lemma EndFacts(h: Hash, now: int, s: Slot, before: Bytes, body: Bytes)
    requires before == Content(s.file) && s.flight.NoRequest?
    ensures Apply(h, now, Writing(s, before, body), EndAppend) == Acknowledged(s, body)
  {
  }

  /** What one append request may do to an upload. */
  predicate AppendOutcome(s: Slot, s': Slot, offset: nat, now: int, body: Bytes, result: AppendResult) {
    match result
    case NotFound => false
    case Conflict => s' == s && !Awaits(s, offset, now)
    case TooLarge => Untouched(s, s') && Awaits(s, offset, now) && offset + |body| > s.expectedSize
    case Disconnected => Untouched(s, s') && Awaits(s, offset, now)
    case Accepted(next) =>
      && Awaits(s, offset, now)
      && next == offset + |body| <= s.expectedSize
      && s' == s.(file := Some(Content(s.file) + body), receivedSize := s.receivedSize + |body|,
                  accepted := s.accepted + body)
  }

  /** Open, unexpired and not being written to, with the next byte due at the offset, in the row and in the file. */
  predicate Awaits(s: Slot, offset: nat, now: int) {
    && s.status.Open? && s.flight.NoRequest? && now < s.expiresAt
    && s.receivedSize == offset && (s.file.None? || |s.file.value| == offset)
  }

  lemma AwaitsIs(s: Slot, offset: nat, now: int)
    ensures CanAppend(s, offset, now) <==> Awaits(s, offset, now)
  {
  }

  /** The bytes that sealing looks at: the uploaded file, made first when an empty upload has none, else the staged one. */
  function Sought(s: Slot): Option<Bytes> {
    if s.file.Some? then s.file else if s.expectedSize == 0 then Some([]) else s.staged
  }

  class Service {
    var slots: map<UploadId, Slot>
    var jobs: seq<UploadId>
    var now: int

    ghost function Now(): World
      reads this
    {
      World(slots, jobs, now)
    }

    /** A new upload for a day: nothing received, its item already downloading. */
    method CreateUpload(h: Hash, u: UploadId, size: nat, declared: Option<Digest>, ghost start: World, ghost past: seq<Event>)
        returns (ghost trace: seq<Event>)
      requires Now() == Run(h, start, past) && Inv(h, Now())
      requires u !in slots
      modifies this`slots
      ensures Now() == Run(h, start, trace) && Inv(h, Now())
      ensures u in slots && slots == old(slots)[u := slots[u]]
      ensures slots[u].expectedSize == size && slots[u].declared == declared && slots[u].expiresAt == now + DAY
      ensures slots[u].status.Open? && slots[u].itemState == DOWNLOADING && slots[u].receivedSize == 0
      ensures slots[u].file.None? && slots[u].staged.None? && slots[u].sha.None? && slots[u].flight.NoRequest?
    {
      trace := past + [Create(u, size, declared, now + DAY)];
      RunAppend(h, start, past, Create(u, size, declared, now + DAY));
      StepOk(h, Now(), Create(u, size, declared, now + DAY));
      hide Run, Inv;
      slots := slots[u := NewSlot(size, declared, now + DAY)];
    }

    /** The streaming loop of PATCH, on a file opened at `offset`; a broken stream or an
        oversized body truncates the file back to where it was. */
    method WriteBody(h: Hash, u: UploadId, s: Slot, before: Bytes, chunks: seq<Bytes>, ghost start: World, ghost past: seq<Event>)
        returns (result: AppendResult, ghost trace: seq<Event>)
      requires Now() == Run(h, start, past)
      requires |before| == s.receivedSize <= s.expectedSize && s.flight.NoRequest?
      requires u in slots && slots[u] == Writing(s, before, [])
      modifies this`slots
      ensures Now() == Run(h, start, trace) && u in slots && slots == old(slots)[u := slots[u]]
      ensures result == TooLarge || result == Disconnected || result == Accepted(s.receivedSize + |Flatten(chunks)|)
      ensures !result.Accepted? ==> slots[u] == s.(file := Some(before))
      ensures result.TooLarge? ==> s.receivedSize + |Flatten(chunks)| > s.expectedSize
      ensures result.Accepted? ==> s.receivedSize + |Flatten(chunks)| <= s.expectedSize
      ensures result.Accepted? ==> slots[u] == Writing(s, before, Flatten(chunks))
    {
      hide Run, Apply;
      trace := past;
      var body: Bytes := [];
      for k := 0 to |chunks|
        invariant body == Flatten(chunks[..k]) && s.receivedSize + |body| <= s.expectedSize
        invariant slots == old(slots)[u := Writing(s, before, body)]
        invariant Now() == Run(h, start, trace)
      {
        assert chunks[..k + 1][..k] == chunks[..k];
        var broken: bool := *;
        var tooLarge := s.receivedSize + |body| + |chunks[k]| > s.expectedSize;
        var step := if broken then Break else Chunk(chunks[k]);
        WritingStep(h, now, s, before, body, step);
        OnIs(h, start, trace, u, step);
        trace := trace + [On(u, step)];
        if broken || tooLarge {
          slots := slots[u := s.(file := Some(before))];
          FlattenGrows(chunks, k + 1);
          return if broken then Disconnected else TooLarge, trace;
        }
        body := body + chunks[k];
        slots := slots[u := Writing(s, before, body)];
      }
      assert chunks[..|chunks|] == chunks;
      result := Accepted(s.receivedSize + |body|);
    }

    /** PATCH: writes the request body chunk by chunk after the recorded offset. The new
        offset is acknowledged only for the whole body; any refusal or broken stream leaves
        the file's contents and the row as they were. */
    method AppendUpload(h: Hash, u: UploadId, offset: nat, chunks: seq<Bytes>, ghost start: World, ghost past: seq<Event>)
        returns (result: AppendResult, ghost trace: seq<Event>)
      requires Now() == Run(h, start, past)
      requires u in slots ==> SlotOk(h, slots[u], now)
      modifies this`slots
      ensures Now() == Run(h, start, trace)
      ensures result.NotFound? <==> u !in old(slots)
      ensures u in old(slots) ==> u in slots && slots == old(slots)[u := slots[u]]
      ensures u in old(slots) ==> AppendOutcome(old(slots)[u], slots[u], offset, now, Flatten(chunks), result)
    {
      hide Run, SlotOk, Apply, CanAppend, Awaits;
      trace := past;
      if u !in slots {
        return NotFound, trace;
      }
      var s := slots[u];
      AwaitsIs(s, offset, now);
      if !CanAppend(s, offset, now) {
        assert slots == slots[u := s];
        return Conflict, trace;
      }
      AppendFacts(h, s, now, offset);
      var before := if s.file.Some? then s.file.value else [];
      OnIs(h, start, trace, u, BeginAppend(offset));
      trace := trace + [On(u, BeginAppend(offset))];
      slots := slots[u := Writing(s, before, [])];
      result, trace := WriteBody(h, u, s, before, chunks, start, trace);
      if result.Accepted? {
        EndFacts(h, now, s, before, Flatten(chunks));
        OnIs(h, start, trace, u, EndAppend);
        trace := trace + [On(u, EndAppend)];
        slots := slots[u := Acknowledged(s, Flatten(chunks))];
      }
    }

    /** The file half of seal_upload: check the bytes and move them to staging. */
    method MoveToStaging(h: Hash, u: UploadId, ghost start: World, ghost past: seq<Event>)
        returns (moved: bool, ghost trace: seq<Event>)
      requires Now() == Run(h, start, past)
      requires u in slots && slots[u].status.Sealing? && slots[u].flight.NoRequest?
      modifies this`slots
      ensures Now() == Run(h, start, trace)
      ensures slots == old(slots)[u := Apply(h, now, Apply(h, now, old(slots)[u], TouchEmpty), MoveFile)]
      ensures moved <==> slots[u].flight.FileMoved?
      ensures var s := old(slots)[u];
              moved <==> && Sought(s).Some? && |Sought(s).value| == s.expectedSize
                         && (s.declared.None? || s.declared == Some(h(Sought(s).value)))
                         && (s.staged.None? || |s.staged.value| == s.expectedSize)
      ensures var s := old(slots)[u];
              moved ==> slots[u] == s.(staged := if s.staged.Some? then s.staged else Sought(s), file := None,
                                       flight := FileMoved(h(Sought(s).value)))
      ensures var s := old(slots)[u];
              !moved ==> slots[u] == if s.file.None? && s.expectedSize == 0 then s.(file := Some([])) else s
    {
      hide Run;
      var s := slots[u];
      OnIs(h, start, past, u, TouchEmpty);
      trace := past + [On(u, TouchEmpty)];
      if s.expectedSize == 0 && s.file.None? {
        s := s.(file := Some([]));
      }
      slots := slots[u := s];
      OnIs(h, start, trace, u, MoveFile);
      trace := trace + [On(u, MoveFile)];
      moved := CanSeal(h, s);
      if moved {
        var checksum := h(SealCandidate(s).value);
        slots := slots[u := s.(staged := if s.staged.Some? then s.staged else s.file, file := None,
                               flight := FileMoved(checksum))];
      }
    }

    /** The database half: sealed row, staged item and queued job in one transaction. */
    method SealTransaction(h: Hash, u: UploadId, ghost start: World, ghost past: seq<Event>)
        returns (ok: bool, ghost trace: seq<Event>)
      requires Now() == Run(h, start, past)
      requires u in slots && slots[u].flight.FileMoved?
      modifies this`slots, this`jobs
      ensures Now() == Run(h, start, trace) && Now() == SealedWorld(old(Now()), u)
      ensures ok <==> ValidTransition(old(slots)[u].itemState, LOCAL_STAGED)
      ensures var s := old(slots)[u];
              slots == old(slots)[u := if ok then s.(sha := Some(s.flight.checksum), itemState := LOCAL_STAGED,
                                                     status := Sealed, flight := NoRequest)
                                       else s.(flight := NoRequest)]
      ensures jobs == old(jobs) + (if ok && u !in old(jobs) then [u] else [])
    {
      hide Run;
      var s := slots[u];
      SealRowIs(h, start, past, u);
      trace := past + [SealRow(u)];
      ok := ValidTransition(s.itemState, LOCAL_STAGED);
      if ok {
        slots := slots[u := s.(sha := Some(s.flight.checksum), itemState := LOCAL_STAGED, status := Sealed, flight := NoRequest)];
        jobs := if u in jobs then jobs else jobs + [u];
      } else {
        slots := slots[u := s.(flight := NoRequest)];
      }
    }

    /** seal_upload. It raises with the upload still sealing, or seals: the latter exactly when
        the digest is right and the bytes were not reaped, however often it was interrupted. */
    method SealUpload(h: Hash, u: UploadId, ghost start: World, ghost past: seq<Event>)
        returns (ok: bool, ghost trace: seq<Event>)
      requires Now() == Run(h, start, past) && Inv(h, Now())
      requires u in slots && slots[u].status.Sealing? && slots[u].flight.NoRequest?
      modifies this`slots, this`jobs
      ensures Now() == Run(h, start, trace) && Inv(h, Now())
      ensures Now() == SealAttempt(h, old(Now()), u) && u in slots
      ensures ok <==> slots[u].status.Sealed?
      ensures ok <==> SealsCleanly(h, old(slots)[u])
      ensures var s := old(slots)[u];
              ok <==> && (s.file.Some? || s.staged.Some? || s.expectedSize == 0)
                      && (s.declared.None? || s.declared == Some(h(s.accepted)))
      ensures ok ==> slots[u] == old(slots)[u].(staged := Some(old(slots)[u].accepted), file := None,
                                                sha := Some(h(old(slots)[u].accepted)), itemState := LOCAL_STAGED, status := Sealed)
      ensures jobs == old(jobs) + (if ok then [u] else [])
      ensures !ok ==> slots[u].status.Sealing? && slots[u].flight.NoRequest?
    {
      SealAgainSucceedsIff(h, Now(), u);
      SealAttemptOk(h, Now(), u);
      SealAttemptSeals(h, Now(), u);
      hide Run, Inv, SlotOk, Apply, Stored, Sought, ValidTransition;
      ok, trace := MoveToStaging(h, u, start, past);
      if ok {
        var _, more := SealTransaction(h, u, start, trace);
        trace := more;
      }
      ok := slots[u].status == Sealed;
    }

    /** POST complete: a sealed upload is acknowledged again, an incomplete one refused, a
        complete one marked sealing and then sealed. */
    method CompleteUpload(h: Hash, u: UploadId, ghost start: World, ghost past: seq<Event>)
        returns (ok: bool, ghost trace: seq<Event>)
      requires Now() == Run(h, start, past) && Inv(h, Now())
      requires u in slots && slots[u].flight.NoRequest?
      modifies this`slots, this`jobs
      ensures Now() == Run(h, start, trace) && Inv(h, Now()) && u in slots
      ensures ok <==> slots[u].status.Sealed?
      ensures ok <==> (|| old(slots)[u].status.Sealed?
                       || (old(slots)[u].status.Open? && old(slots)[u].receivedSize == old(slots)[u].expectedSize
                           && SealsCleanly(h, old(slots)[u])))
    {
      hide Run, Inv, SlotOk, SealsCleanly;
      trace := past;
      var s := slots[u];
      if s.status != Open || s.receivedSize != s.expectedSize {
        return s.status == Sealed, trace;
      }
      CompleteOk(h, Now(), u);
      OnIs(h, start, trace, u, Complete);
      trace := trace + [On(u, Complete)];
      slots := slots[u := s.(status := Sealing)];
      ok, trace := SealUpload(h, u, start, trace);
    }

    /** Startup: every upload interrupted while sealing is sealed or marked failed, each in its
        own transaction, so one bad upload stops none of the others. */
    method ReconcileSealingUploads(h: Hash, ghost start: World, ghost past: seq<Event>)
        returns (recovered: nat, ghost trace: seq<Event>)
      requires Now() == Run(h, start, past) && Inv(h, Now())
      requires forall u :: u in slots ==> slots[u].flight.NoRequest?
      modifies this`slots, this`jobs
      ensures Now() == Run(h, start, trace) && Inv(h, Now()) && slots.Keys == old(slots).Keys
      ensures forall u :: u in slots && old(slots)[u].status.Sealing? ==>
        slots[u].status == if SealsCleanly(h, old(slots)[u]) then Sealed else Failed
      ensures forall u :: u in slots && !old(slots)[u].status.Sealing? ==> slots[u] == old(slots)[u]
    {
      hide Run, Inv, SlotOk, SealsCleanly;
      trace := past;
      recovered := 0;
      var pending := set u | u in slots && slots[u].status == Sealing;
      var first := slots;
      while pending != {}
        invariant Now() == Run(h, start, trace) && Inv(h, Now()) && now == old(now)
        invariant pending <= slots.Keys && slots.Keys == first.Keys
        invariant forall u :: u in pending ==> first[u].status.Sealing?
        invariant forall u :: u in slots && (u in pending || !first[u].status.Sealing?) ==> slots[u] == first[u]
        invariant forall u :: u in slots && u !in pending && first[u].status.Sealing? ==>
          slots[u].status == if SealsCleanly(h, first[u]) then Sealed else Failed
        decreases pending
      {
        var u :| u in pending;
        pending := pending - {u};
        var ok: bool;
        ok, trace := SealOrFail(h, u, start, trace);
        if ok {
          recovered := recovered + 1;
        }
      }
    }

    /** Startup: every open upload past its expiry is given up; no other is touched. */
    method ReapExpiredUploads(h: Hash, ghost start: World, ghost past: seq<Event>)
        returns (reaped: nat, ghost trace: seq<Event>)
      requires Now() == Run(h, start, past) && Inv(h, Now())
      requires forall u :: u in slots ==> slots[u].flight.NoRequest?
      modifies this`slots
      ensures Now() == Run(h, start, trace) && Inv(h, Now()) && slots.Keys == old(slots).Keys
      ensures forall u :: u in slots ==>
        slots[u] == if old(slots)[u].status.Open? && Expired(old(slots)[u], now) then Reaped(old(slots)[u]) else old(slots)[u]
      ensures forall u :: u in slots && old(slots)[u].status.Open? && old(slots)[u].expiresAt <= now ==>
        slots[u].status.Failed? && slots[u].itemState == ManualReview && slots[u].file.None?
    {
      hide Run, Inv, SlotOk, Apply;
      trace := past;
      reaped := 0;
      var expired := set u | u in slots && slots[u].status == Open && Expired(slots[u], now);
      while expired != {}
        invariant Now() == Run(h, start, trace) && Inv(h, Now())
        invariant expired <= slots.Keys == old(slots).Keys
        invariant forall u :: u in expired ==> old(slots)[u].status.Open? && Expired(old(slots)[u], now)
        invariant forall u :: u in slots ==>
          slots[u] == if u !in expired && old(slots)[u].status.Open? && Expired(old(slots)[u], now)
                      then Reaped(old(slots)[u]) else old(slots)[u]
        decreases expired
      {
        var u :| u in expired;
        expired := expired - {u};
        var s := slots[u];
        ReapOk(h, Now(), u);
        OnIs(h, start, trace, u, ReapFile);
        OnIs(h, start, trace + [On(u, ReapFile)], u, ReapRow);
        trace := trace + [On(u, ReapFile)] + [On(u, ReapRow)];
        slots := slots[u := Reaped(s)];
        reaped := reaped + 1;
      }
    }

    /** Startup recovery over the items of uploads; a live upload's item is where it has to be. */
    method RecoverItems(h: Hash, ghost start: World, ghost past: seq<Event>) returns (ghost trace: seq<Event>)
      requires Now() == Run(h, start, past) && Inv(h, Now())
      requires forall u :: u in slots ==> slots[u].flight.NoRequest?
      modifies this`slots
      ensures Now() == Run(h, start, trace) && Inv(h, Now()) && slots.Keys == old(slots).Keys
      ensures forall u :: u in slots ==> slots[u] == ItemRecovered(old(slots)[u])
      ensures forall u :: u in slots && Live(old(slots)[u]) ==> slots[u] == old(slots)[u]
      ensures forall u :: u in slots ==> slots[u] == old(slots)[u].(itemState := slots[u].itemState)
      ensures forall u :: u in slots && !Live(old(slots)[u]) ==>
        var s := old(slots)[u].itemState;
        slots[u].itemState == if s == DELETING then ManualReview
                              else if s == DOWNLOADING || s.Restoring? then FailedRetryable else s
      ensures forall u :: u in slots ==> slots[u].flight.NoRequest? && Live(slots[u]) == Live(old(slots)[u])
    {
      hide Run, Inv, SlotOk, Apply, ItemRecovered;
      trace := past;
      var rest := slots.Keys;
      while rest != {}
        invariant Now() == Run(h, start, trace) && Inv(h, Now())
        invariant rest <= slots.Keys == old(slots).Keys
        invariant forall u :: u in slots ==>
          slots[u] == if u in rest then old(slots)[u] else ItemRecovered(old(slots)[u])
        decreases rest
      {
        var u :| u in rest;
        rest := rest - {u};
        RecoverOk(h, Now(), u);
        OnIs(h, start, trace, u, RecoverItem);
        trace := trace + [On(u, RecoverItem)];
        slots := slots[u := ItemRecovered(slots[u])];
      }
      LiveItemsStay(h, World(old(slots), jobs, now));
      RecoveryKeepsStatus();
      RecoveredItems();
    }

    /** The first two passes: afterwards nothing is sealing, and open uploads are as they were. */
    method RecoverAndReconcile(h: Hash, ghost start: World, ghost past: seq<Event>) returns (ghost trace: seq<Event>)
      requires Now() == Run(h, start, past) && Inv(h, Now())
      requires forall u :: u in slots ==> slots[u].flight.NoRequest?
      modifies this`slots, this`jobs
      ensures Now() == Run(h, start, trace) && Inv(h, Now()) && slots.Keys == old(slots).Keys
      ensures forall u :: u in slots ==> slots[u].flight.NoRequest? && !slots[u].status.Sealing?
      ensures forall u :: u in slots && old(slots)[u].status.Sealing? ==>
        slots[u].status == if SealsCleanly(h, old(slots)[u]) then Sealed else Failed
      ensures forall u :: u in slots && (slots[u].status.Open? || old(slots)[u].status.Open?) ==> slots[u] == old(slots)[u]
    {
      hide Run, Inv, SlotOk, SealsCleanly, ItemRecovered;
      trace := RecoverItems(h, start, past);
      var recovered: nat;
      recovered, trace := ReconcileSealingUploads(h, start, trace);
      FinishedUploadsAreQuiet(h, Now());
    }

    /** The three passes of the worker's start, in its order. None leaves work for the next to undo:
        afterwards no upload is sealing or expired, what could be sealed is, and an upload the client
        can still send to is as it was. */
    method Startup(h: Hash, ghost start: World, ghost past: seq<Event>) returns (ghost trace: seq<Event>)
      requires Now() == Run(h, start, past) && Inv(h, Now())
      requires forall u :: u in slots ==> slots[u].flight.NoRequest?
      modifies this`slots, this`jobs
      ensures Now() == Run(h, start, trace) && Inv(h, Now()) && slots.Keys == old(slots).Keys
      ensures forall u :: u in slots ==> !slots[u].status.Sealing? && (slots[u].status.Open? ==> !Expired(slots[u], now))
      ensures forall u :: u in slots && old(slots)[u].status.Open? && !Expired(old(slots)[u], now) ==> slots[u] == old(slots)[u]
      ensures forall u :: u in slots && old(slots)[u].status.Sealing? ==>
        slots[u].status == if SealsCleanly(h, old(slots)[u]) then Sealed else Failed
    {
      hide Run, Inv, SlotOk, SealsCleanly;
      trace := RecoverAndReconcile(h, start, past);
      var reaped: nat;
      reaped, trace := ReapExpiredUploads(h, start, trace);
    }

    /** One upload of the startup pass: seal it, or mark it failed when sealing raises. */
    method SealOrFail(h: Hash, u: UploadId, ghost start: World, ghost past: seq<Event>)
        returns (ok: bool, ghost trace: seq<Event>)
      requires Now() == Run(h, start, past) && Inv(h, Now())
      requires u in slots && slots[u].status.Sealing? && slots[u].flight.NoRequest?
      modifies this`slots, this`jobs
      ensures Now() == Run(h, start, trace) && Inv(h, Now()) && u in slots
      ensures slots[u].status == if SealsCleanly(h, old(slots)[u]) then Sealed else Failed
      ensures slots == old(slots)[u := slots[u]]
    {
      hide Run, SealsCleanly, Inv, SlotOk, SealAttempt;
      SealAttemptLeavesOthers(h, Now(), u);
      ok, trace := SealUpload(h, u, start, past);
      if !ok {
        var s := slots[u];
        RefusedOk(h, Now(), u);
        OnIs(h, start, trace, u, SealRefused);
        trace := trace + [On(u, SealRefused)];
        slots := slots[u := s.(status := Failed)];
      }
    }
  }

  function ItemRecovered(s: Slot): Slot {
    s.(itemState := Audit.Recovered(s.itemState, Live(s), false))
  }

  lemma RecoveryKeepsStatus()
    ensures forall s :: ItemRecovered(s).status == s.status && ItemRecovered(s).flight == s.flight
                        && ItemRecovered(s).expiresAt == s.expiresAt
  {
  }

  lemma RecoveredItems()
    ensures forall s :: ItemRecovered(s) == s.(itemState := ItemRecovered(s).itemState)
    ensures forall s :: !Live(s) ==>
              ItemRecovered(s).itemState == if s.itemState == DELETING then ManualReview
                                            else if s.itemState == DOWNLOADING || s.itemState.Restoring? then FailedRetryable
                                            else s.itemState
  {
    forall s: Slot | !Live(s)
      ensures ItemRecovered(s).itemState == if s.itemState == DELETING then ManualReview
                                            else if s.itemState == DOWNLOADING || s.itemState.Restoring? then FailedRetryable
                                            else s.itemState
    {
      Audit.RecoveryByState(s.itemState, false, false);
    }
  }

  lemma RecoverItemIs(h: Hash, now: int, s: Slot)
    requires s.flight.NoRequest?
    ensures Apply(h, now, s, RecoverItem) == ItemRecovered(s)
  {
  }

  lemma RecoverOk(h: Hash, w: World, u: UploadId)
    requires Inv(h, w) && u in w.slots && w.slots[u].flight.NoRequest?
    ensures Inv(h, Put(w, u, ItemRecovered(w.slots[u])))
    ensures Apply(h, w.now, w.slots[u], RecoverItem) == ItemRecovered(w.slots[u])
  {
    hide SlotOk, Apply;
    assert SlotOk(h, w.slots[u], w.now);
    RecoverItemIs(h, w.now, w.slots[u]);
    OtherStepOk(h, w.now, w.slots[u], RecoverItem);
    PutOk(h, w, u, ItemRecovered(w.slots[u]));
  }

  lemma FinishedUploadsAreQuiet(h: Hash, w: World)
    requires Inv(h, w)
    ensures forall u :: u in w.slots && !Live(w.slots[u]) ==> w.slots[u].flight.NoRequest?
  {
    forall u | u in w.slots && !Live(w.slots[u]) ensures w.slots[u].flight.NoRequest? {
      assert SlotOk(h, w.slots[u], w.now);
    }
  }

  lemma LiveItemsStay(h: Hash, w: World)
    requires Inv(h, w)
    ensures forall u :: u in w.slots && Live(w.slots[u]) ==> ItemRecovered(w.slots[u]) == w.slots[u]
  {
    forall u | u in w.slots && Live(w.slots[u]) ensures ItemRecovered(w.slots[u]) == w.slots[u] {
      assert SlotOk(h, w.slots[u], w.now);
    }
  }

  lemma SealAttemptOk(h: Hash, w: World, u: UploadId)
    requires Inv(h, w) && u in w.slots && w.slots[u].status.Sealing? && w.slots[u].flight.NoRequest?
    ensures var w' := SealAttempt(h, w, u);
            Inv(h, w') && u in w'.slots && w'.slots[u].flight.NoRequest?
  {
    var s := w.slots[u];
    assert SlotOk(h, s, w.now);
    SealedSlot(h, w.now, s);
    var moved := Apply(h, w.now, Apply(h, w.now, s, TouchEmpty), MoveFile);
    assert moved.flight.NoRequest? || moved.flight.FileMoved?;
    hide Apply, SlotOk;
    PutOk(h, w, u, moved);
    SealedWorldOk(h, Put(w, u, moved), u);
  }

  /** A sealing upload is sealed with what was accepted, exactly when a store holds it and the digest is right. */
  lemma SealAttemptSeals(h: Hash, w: World, u: UploadId)
    requires Inv(h, w) && u in w.slots && w.slots[u].status.Sealing? && w.slots[u].flight.NoRequest?
    ensures var s, w' := w.slots[u], SealAttempt(h, w, u);
            && (w'.slots[u].status.Sealed? <==>
                  (s.file.Some? || s.staged.Some? || s.expectedSize == 0) && (s.declared.None? || s.declared == Some(h(s.accepted))))
            && (w'.slots[u].status.Sealed? ==>
                  w'.slots[u] == s.(staged := Some(s.accepted), file := None, sha := Some(h(s.accepted)),
                                    itemState := LOCAL_STAGED, status := Sealed))
            && w'.jobs == w.jobs + if w'.slots[u].status.Sealed? then [u] else []
  {
    var s := w.slots[u];
    assert SlotOk(h, s, w.now);
    assert multiset(w.jobs)[u] == 0;
    SealedSlot(h, w.now, s);
  }

  lemma CompleteOk(h: Hash, w: World, u: UploadId)
    requires Inv(h, w) && u in w.slots && w.slots[u].flight.NoRequest?
    requires w.slots[u].status.Open? && w.slots[u].receivedSize == w.slots[u].expectedSize
    ensures Inv(h, Put(w, u, w.slots[u].(status := Sealing)))
    ensures SealsCleanly(h, w.slots[u].(status := Sealing)) <==> SealsCleanly(h, w.slots[u])
  {
    SealStepOk(h, w.now, w.slots[u], Complete);
    hide SlotOk;
    PutOk(h, w, u, w.slots[u].(status := Sealing));
  }

  lemma ReapOk(h: Hash, w: World, u: UploadId)
    requires Inv(h, w) && u in w.slots && w.slots[u].status.Open? && w.slots[u].flight.NoRequest?
    requires Expired(w.slots[u], w.now)
    ensures Inv(h, Put(w, u, Reaped(w.slots[u])))
    ensures Apply(h, w.now, Apply(h, w.now, w.slots[u], ReapFile), ReapRow) == Reaped(w.slots[u])
  {
    OtherStepOk(h, w.now, w.slots[u], ReapFile);
    OtherStepOk(h, w.now, Apply(h, w.now, w.slots[u], ReapFile), ReapRow);
    hide SlotOk;
    PutOk(h, w, u, Reaped(w.slots[u]));
  }

  /** An upload given up: its file released, itself failed, its item in manual review. */
  function Reaped(s: Slot): Slot {
    s.(file := None, reaped := true, status := Failed, itemState := ManualReview, flight := NoRequest)
  }

  lemma RefusedOk(h: Hash, w: World, u: UploadId)
    requires Inv(h, w) && u in w.slots && w.slots[u].status.Sealing? && w.slots[u].flight.NoRequest?
    ensures Inv(h, Put(w, u, w.slots[u].(status := Failed)))
  {
    SealStepOk(h, w.now, w.slots[u], SealRefused);
    hide SlotOk;
    PutOk(h, w, u, w.slots[u].(status := Failed));
  }

  lemma SealAttemptLeavesOthers(h: Hash, w: World, u: UploadId)
    requires u in w.slots
    ensures var w' := SealAttempt(h, w, u);
            u in w'.slots && w'.slots == w.slots[u := w'.slots[u]] && w'.now == w.now
  {
  }

  lemma {:induction false} FlattenGrows(chunks: seq<Bytes>, k: nat)
    requires k <= |chunks|
    ensures |Flatten(chunks[..k])| <= |Flatten(chunks)|
  {
    if k < |chunks| {
      var init := chunks[..|chunks| - 1];
      FlattenGrows(init, k);
      assert init[..k] == chunks[..k];
    } else {
      assert chunks[..k] == chunks;
    }
  }
}
