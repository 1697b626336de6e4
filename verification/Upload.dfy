/** Chunked uploads: append with rollback, seal across crashes, reaping, and the archive item
    and job they carry (src/mnema/file_provider/service.py, src/mnema/file_provider/api.py). */
module Upload {
  import opened Basics
  import opened States
  import Audit

  type UploadId = nat

  datatype Status = Open | Sealing | Sealed | Failed

  /** Where a request or the reaper stands between two crash points. */
  datatype Flight =
    | NoRequest
    | Appending(offset: nat, body: Bytes)
    | FileMoved(checksum: Digest)
    | Reaping

  /** One upload with everything that belongs to it alone: its row, its file under the upload
      root, the partial file and the row of its archive item. `accepted` records the bodies
      acknowledged to the client, `torn` that a process died inside an append, `reaped` that
      the reaper unlinked the file. */
  datatype Slot = Slot(
    expectedSize: nat,
    receivedSize: nat,
    declared: Option<Digest>,
    status: Status,
    expiresAt: int,
    file: Option<Bytes>,
    staged: Option<Bytes>,
    itemState: ArchiveState,
    sha: Option<Digest>,
    flight: Flight,
    accepted: Bytes,
    torn: bool,
    reaped: bool)

  /** `jobs` lists the idempotency keys in the queue. */
  datatype World = World(slots: map<UploadId, Slot>, jobs: seq<UploadId>, now: int)

  const EMPTY_WORLD := World(map[], [], 0)

  datatype SlotStep =
    | BeginAppend(offset: nat)
    | Chunk(chunk: Bytes)
    | Break
    | EndAppend
    | Complete
    | TouchEmpty
    | MoveFile
    | SealRefused
    | ReapFile
    | ReapRow
    | RecoverItem
    | Advance(target: ArchiveState)

  datatype Event =
    | Create(u: UploadId, size: nat, declared: Option<Digest>, expiresAt: int)
    | On(u: UploadId, step: SlotStep)
    | SealRow(u: UploadId)
    | Tick(seconds: nat)
    | Crash

  function Truncated(f: Bytes, n: nat): Bytes {
    if n <= |f| then f[..n] else f
  }

  function RolledBack(s: Slot): Slot
    requires s.flight.Appending?
  {
    s.(file := if s.file.Some? then Some(Truncated(s.file.value, s.flight.offset)) else None, flight := NoRequest)
  }

  /** The request is served: open, unexpired, at the recorded offset, and the file agrees. */
  predicate CanAppend(s: Slot, offset: nat, now: int) {
    && s.flight.NoRequest? && s.status.Open? && s.expiresAt > now
    && s.receivedSize == offset
    && (s.file.Some? ==> |s.file.value| == offset)
  }

  predicate Expired(s: Slot, now: int) {
    s.expiresAt <= now
  }

  predicate Live(s: Slot) {
    s.status.Open? || s.status.Sealing?
  }

  /** seal_upload reads the uploaded file, or the staged one when the rename already happened. */
  function SealCandidate(s: Slot): Option<Bytes> {
    if s.file.Some? then s.file else s.staged
  }

  predicate CanSeal(h: Hash, s: Slot) {
    && s.status.Sealing? && s.flight.NoRequest?
    && SealCandidate(s).Some?
    && var bytes := SealCandidate(s).value;
    && |bytes| == s.expectedSize
    && (s.declared.Some? ==> s.declared.value == h(bytes))
    && (s.staged.Some? ==> |s.staged.value| == s.expectedSize)
  }

  function Apply(h: Hash, now: int, s: Slot, step: SlotStep): Slot {
    match step
    case BeginAppend(offset) =>
      if CanAppend(s, offset, now)
      then s.(file := Some(if s.file.Some? then s.file.value else []), flight := Appending(offset, [])) else s
    case Chunk(chunk) =>
      if !s.flight.Appending? || s.file.None? then s
      else if s.flight.offset + |s.flight.body| + |chunk| > s.expectedSize then RolledBack(s)
      else s.(file := Some(s.file.value + chunk), flight := Appending(s.flight.offset, s.flight.body + chunk))
    case Break => if s.flight.Appending? then RolledBack(s) else s
    case EndAppend =>
      if s.flight.Appending?
      then s.(receivedSize := s.receivedSize + |s.flight.body|, accepted := s.accepted + s.flight.body, flight := NoRequest)
      else s
    case Complete =>
      if s.flight.NoRequest? && s.status.Open? && s.receivedSize == s.expectedSize then s.(status := Sealing) else s
    case TouchEmpty =>
      if s.flight.NoRequest? && s.status.Sealing? && s.expectedSize == 0 && s.file.None?
      then s.(file := Some([])) else s
    case MoveFile =>
      if CanSeal(h, s)
      then s.(staged := if s.staged.Some? then s.staged else s.file, file := None,
              flight := FileMoved(h(SealCandidate(s).value)))
      else s
    case SealRefused => if s.flight.NoRequest? && s.status.Sealing? then s.(status := Failed) else s
    case ReapFile =>
      if s.flight.NoRequest? && s.status.Open? && Expired(s, now)
      then s.(file := None, reaped := true, flight := Reaping) else s
    case ReapRow =>
      if s.flight.Reaping? && ValidTransition(s.itemState, ManualReview)
      then s.(status := Failed, itemState := ManualReview, flight := NoRequest) else s
    case RecoverItem =>
      if s.flight.NoRequest? then s.(itemState := Audit.Recovered(s.itemState, Live(s), false)) else s
    case Advance(target) =>
      // the archive worker, on an item whose upload is sealed; with no source to download from
      // again, it never stages the item a second time
      if s.status.Sealed? && ValidTransition(s.itemState, target) && target != LOCAL_STAGED
      then s.(itemState := target, staged := if target == LOCAL_COMMITTED then None else s.staged) else s
  }

  function NewSlot(size: nat, declared: Option<Digest>, expiresAt: int): Slot {
    Slot(size, 0, declared, Open, expiresAt, None, None, DOWNLOADING, None, NoRequest, [], false, false)
  }

  /** What a dead process leaves of a request. */
  function Dropped(s: Slot): Slot {
    s.(torn := s.torn || s.flight.Appending?, flight := NoRequest)
  }

  function Enqueued(jobs: seq<UploadId>, u: UploadId): seq<UploadId> {
    if u in jobs then jobs else jobs + [u]
  }

  function Put(w: World, u: UploadId, s: Slot): World {
    w.(slots := w.slots[u := s])
  }

  /** The one transaction that marks the upload sealed, stages the item and queues the job. */
  function SealedWorld(w: World, u: UploadId): World
    requires u in w.slots
  {
    var s := w.slots[u];
    if !s.flight.FileMoved? then w
    else if !ValidTransition(s.itemState, LOCAL_STAGED) then Put(w, u, s.(flight := NoRequest))
    else
      World(w.slots[u := s.(sha := Some(s.flight.checksum), itemState := LOCAL_STAGED, status := Sealed,
                            flight := NoRequest)],
            Enqueued(w.jobs, u), w.now)
  }

  function Step(h: Hash, w: World, e: Event): World {
    match e
    case Create(u, size, declared, expiresAt) =>
      if u in w.slots then w else Put(w, u, NewSlot(size, declared, expiresAt))
    case On(u, step) => if u in w.slots then Put(w, u, Apply(h, w.now, w.slots[u], step)) else w
    case SealRow(u) => if u in w.slots then SealedWorld(w, u) else w
    case Tick(seconds) => w.(now := w.now + seconds)
    case Crash => w.(slots := map u | u in w.slots :: Dropped(w.slots[u]))
  }

  function Run(h: Hash, w: World, events: seq<Event>): World {
    if events == [] then w else Step(h, Run(h, w, events[..|events| - 1]), events[|events| - 1])
  }

  lemma RunAppend(h: Hash, w: World, trace: seq<Event>, e: Event)
    ensures Run(h, w, trace + [e]) == Step(h, Run(h, w, trace), e)
  {
    assert (trace + [e])[..|trace|] == trace;
  }

  lemma OnIs(h: Hash, w: World, trace: seq<Event>, u: UploadId, step: SlotStep)
    requires u in Run(h, w, trace).slots
    ensures var now := Run(h, w, trace);
            Run(h, w, trace + [On(u, step)]) == Put(now, u, Apply(h, now.now, now.slots[u], step))
  {
    hide Apply;
    RunAppend(h, w, trace, On(u, step));
  }

  lemma SealRowIs(h: Hash, w: World, trace: seq<Event>, u: UploadId)
    requires u in Run(h, w, trace).slots
    ensures Run(h, w, trace + [SealRow(u)]) == SealedWorld(Run(h, w, trace), u)
  {
    hide SealedWorld;
    RunAppend(h, w, trace, SealRow(u));
  }

  // ----- What every run keeps -----

  /** An open upload: the file starts with what was accepted, and holds nothing more unless a
      request is writing or a process died while one was. */
  predicate OpenOk(s: Slot, now: int) {
    && s.itemState == DOWNLOADING && s.staged.None? && s.sha.None?
    && (s.file.Some? ==>
          && s.accepted <= s.file.value && |s.file.value| <= s.expectedSize
          && (s.flight.NoRequest? && !s.torn ==> s.file.value == s.accepted))
    && (s.file.None? ==> s.receivedSize == 0 || s.reaped)
    && (s.reaped ==> Expired(s, now) && s.file.None?)
    && match s.flight
       case NoRequest => true
       case Appending(offset, body) =>
         offset == s.receivedSize && s.file == Some(s.accepted + body) && !s.reaped
       case FileMoved(_) => false
       case Reaping => s.reaped
  }

  /** The bytes of a sealing upload: at the upload path, or moved to the staging path, or an
      empty upload never written, or discarded by the reaper after expiry. */
  predicate BytesKept(s: Slot) {
    || (s.file == Some(s.accepted) && s.staged.None?)
    || (s.staged == Some(s.accepted) && (s.file.None? || (s.accepted == [] && s.file == Some([]))))
    || (s.accepted == [] && s.file.None? && s.staged.None?)
    || (s.reaped && s.file.None? && s.staged.None?)
  }

  predicate SealingOk(h: Hash, s: Slot) {
    && s.itemState == DOWNLOADING && s.receivedSize == s.expectedSize && BytesKept(s)
    && (s.reaped && s.accepted != [] ==> s.file.None? && s.staged.None?)
    && match s.flight
       case NoRequest => true
       case Appending(_, _) => false
       case FileMoved(checksum) =>
         && s.staged == Some(s.accepted) && checksum == h(s.accepted)
         && (s.declared.Some? ==> s.declared.value == checksum)
       case Reaping => false
  }

  predicate SealedOk(h: Hash, s: Slot) {
    && s.receivedSize == s.expectedSize
    && s.sha == Some(h(s.accepted))
    && (s.declared.Some? ==> s.sha == s.declared)
    && (s.itemState == LOCAL_STAGED || s.itemState == LOCAL_VERIFIED ==> s.staged == Some(s.accepted))
    && s.flight.NoRequest?
  }

  predicate SlotOk(h: Hash, s: Slot, now: int) {
    && s.receivedSize <= s.expectedSize && |s.accepted| == s.receivedSize
    && match s.status
       case Open => OpenOk(s, now)
       case Sealing => SealingOk(h, s)
       case Sealed => SealedOk(h, s)
       case Failed => s.flight.NoRequest?
  }

  /** A job exists for an upload exactly when it has been sealed, and then exactly one. */
  ghost predicate JobsMatch(w: World) {
    forall u :: multiset(w.jobs)[u] == if u in w.slots && w.slots[u].status.Sealed? then 1 else 0
  }

  ghost predicate Inv(h: Hash, w: World) {
    && (forall u :: u in w.slots ==> SlotOk(h, w.slots[u], w.now))
    && JobsMatch(w)
  }

  lemma AppendStepOk(h: Hash, now: int, s: Slot, step: SlotStep)
    requires SlotOk(h, s, now)
    requires step.BeginAppend? || step.Chunk? || step.Break? || step.EndAppend?
    ensures SlotOk(h, Apply(h, now, s, step), now) && Apply(h, now, s, step).status == s.status
  {
    if s.flight.Appending? && s.status.Open? {
      assert (s.accepted + s.flight.body)[..|s.accepted|] == s.accepted;
      if step.Chunk? {
        assert (s.accepted + s.flight.body) + step.chunk == s.accepted + (s.flight.body + step.chunk);
      }
    } else if step.BeginAppend? && CanAppend(s, step.offset, now) {
      assert s.file.Some? ==> s.file.value == s.accepted;
      assert s.accepted + [] == s.accepted;
    }
  }

  lemma SealStepOk(h: Hash, now: int, s: Slot, step: SlotStep)
    requires SlotOk(h, s, now)
    requires step.Complete? || step.TouchEmpty? || step.MoveFile? || step.SealRefused?
    ensures SlotOk(h, Apply(h, now, s, step), now)
    ensures Apply(h, now, s, step).status.Sealed? <==> s.status.Sealed?
  {
    if step.Complete? && s.file.Some? && s.status.Open? && s.receivedSize == s.expectedSize {
      assert s.file.value == s.accepted;
    }
  }

  lemma OtherStepOk(h: Hash, now: int, s: Slot, step: SlotStep)
    requires SlotOk(h, s, now)
    requires step.ReapFile? || step.ReapRow? || step.RecoverItem? || step.Advance?
    ensures SlotOk(h, Apply(h, now, s, step), now)
    ensures Apply(h, now, s, step).status.Sealed? <==> s.status.Sealed?
  {
  }

  lemma PutOk(h: Hash, w: World, u: UploadId, s: Slot)
    requires Inv(h, w) && SlotOk(h, s, w.now)
    requires s.status.Sealed? <==> u in w.slots && w.slots[u].status.Sealed?
    ensures Inv(h, Put(w, u, s))
  {
  }

  lemma SealedWorldOk(h: Hash, w: World, u: UploadId)
    requires Inv(h, w) && u in w.slots
    ensures Inv(h, SealedWorld(w, u))
  {
    var s := w.slots[u];
    var w' := SealedWorld(w, u);
    if s.flight.FileMoved? {
      assert SlotOk(h, s, w.now) && s.status.Sealing?;
      assert multiset(w.jobs)[u] == 0;
      assert w'.jobs == w.jobs + [u];
      assert multiset(w'.jobs) == multiset(w.jobs) + multiset{u};
    }
  }

  lemma TimePasses(h: Hash, s: Slot, now: int, later: int)
    requires SlotOk(h, s, now) && now <= later
    ensures SlotOk(h, s, later)
  {
  }

  lemma CrashOk(h: Hash, s: Slot, now: int)
    requires SlotOk(h, s, now)
    ensures SlotOk(h, Dropped(s), now) && Dropped(s).status == s.status
  {
  }

  lemma StepOk(h: Hash, w: World, e: Event)
    requires Inv(h, w)
    ensures Inv(h, Step(h, w, e))
  {
    match e
    case Create(u, size, declared, expiresAt) =>
      if u !in w.slots {
        PutOk(h, w, u, NewSlot(size, declared, expiresAt));
      }
    case On(u, step) =>
      if u in w.slots {
        var s := w.slots[u];
        if step.BeginAppend? || step.Chunk? || step.Break? || step.EndAppend? {
          AppendStepOk(h, w.now, s, step);
        } else if step.Complete? || step.TouchEmpty? || step.MoveFile? || step.SealRefused? {
          SealStepOk(h, w.now, s, step);
        } else {
          OtherStepOk(h, w.now, s, step);
        }
        PutOk(h, w, u, Apply(h, w.now, s, step));
      }
    case SealRow(u) =>
      if u in w.slots {
        SealedWorldOk(h, w, u);
      }
    case Tick(seconds) =>
      forall u | u in w.slots ensures SlotOk(h, w.slots[u], w.now + seconds) {
        TimePasses(h, w.slots[u], w.now, w.now + seconds);
      }
    case Crash =>
      forall u | u in w.slots ensures SlotOk(h, Dropped(w.slots[u]), w.now) {
        CrashOk(h, w.slots[u], w.now);
      }
  }

  /** The coupled lifecycle invariant over every run of creates, appends, completions, seals,
      reaping, archive work, crashes and restarts. */
  lemma {:induction false} UploadsStayCoupled(h: Hash, events: seq<Event>)
    ensures Inv(h, Run(h, EMPTY_WORLD, events))
  {
    if events != [] {
      UploadsStayCoupled(h, events[..|events| - 1]);
      StepOk(h, Run(h, EMPTY_WORLD, events[..|events| - 1]), events[|events| - 1]);
    } else {
      assert multiset(EMPTY_WORLD.jobs) == multiset{};
    }
  }

  // ----- Consequences -----

  lemma LiveMeansDownloading(h: Hash, s: Slot, now: int)
    requires SlotOk(h, s, now) && Live(s)
    ensures s.itemState == DOWNLOADING && Apply(h, now, s, RecoverItem) == s
  {
  }

  /** While an upload is open or sealing its archive item stays in DOWNLOADING, and restart
      recovery leaves it there; a job keyed by the upload exists, once, iff it is sealed. */
  lemma CoupledLifecycle(h: Hash, events: seq<Event>, u: UploadId)
    requires u in Run(h, EMPTY_WORLD, events).slots
    ensures var w := Run(h, EMPTY_WORLD, events);
            var s := w.slots[u];
            && (Live(s) ==> s.itemState == DOWNLOADING && Apply(h, w.now, s, RecoverItem) == s)
            && (u in w.jobs <==> s.status.Sealed?)
            && multiset(w.jobs)[u] <= 1
  {
    UploadsStayCoupled(h, events);
    var w := Run(h, EMPTY_WORLD, events);
    assert SlotOk(h, w.slots[u], w.now);
    hide Run, SlotOk, Apply;
    if Live(w.slots[u]) {
      LiveMeansDownloading(h, w.slots[u], w.now);
    }
    assert u in w.jobs <==> u in multiset(w.jobs);
  }

  /** A sealed upload is, byte for byte, what the client was told had been accepted, of the
      declared size and digest; that is also the digest the archive will verify against. */
  lemma SealedIsWhatWasSent(h: Hash, events: seq<Event>, u: UploadId)
    requires u in Run(h, EMPTY_WORLD, events).slots
    requires Run(h, EMPTY_WORLD, events).slots[u].status.Sealed?
    ensures var s := Run(h, EMPTY_WORLD, events).slots[u];
            && |s.accepted| == s.expectedSize
            && s.sha == Some(h(s.accepted)) && (s.declared.Some? ==> s.sha == s.declared)
            && (s.itemState == LOCAL_STAGED ==> s.staged == Some(s.accepted))
  {
    UploadsStayCoupled(h, events);
  }

  /** The received bytes of an open upload are exactly the first bytes of its file, and the file is there
      once a byte was received, unless the upload has expired and the reaper got to it. */
  lemma AcceptedBytesAreOnDisk(h: Hash, events: seq<Event>, u: UploadId)
    requires u in Run(h, EMPTY_WORLD, events).slots
    requires Run(h, EMPTY_WORLD, events).slots[u].status.Open?
    ensures var w := Run(h, EMPTY_WORLD, events);
            var s := w.slots[u];
            && s.receivedSize <= s.expectedSize && |s.accepted| == s.receivedSize
            && (s.file.Some? ==> s.receivedSize <= |s.file.value| && s.file.value[..s.receivedSize] == s.accepted)
            && (!Expired(s, w.now) && s.receivedSize > 0 ==> s.file.Some?)
            && (s.flight.NoRequest? && !s.torn && s.file.Some? ==> s.file.value == s.accepted)
  {
    UploadsStayCoupled(h, events);
    var w := Run(h, EMPTY_WORLD, events);
    assert SlotOk(h, w.slots[u], w.now);
  }

  /** One attempt at seal_upload, as far as its checks let it. */
  function SealAttempt(h: Hash, w: World, u: UploadId): World
    requires u in w.slots
  {
    SealedWorld(Put(w, u, Apply(h, w.now, Apply(h, w.now, w.slots[u], TouchEmpty), MoveFile)), u)
  }

  /** The bytes the stores hold for an upload: at the upload path, else staged, else nothing at all,
      which is what an empty upload consists of. */
  function Stored(s: Slot): Option<Bytes> {
    if s.file.Some? then s.file else if s.staged.Some? then s.staged else if s.expectedSize == 0 then Some([]) else None
  }

  /** What sealing needs: bytes, and the declared digest of them, if one was declared. */
  predicate SealsCleanly(h: Hash, s: Slot) {
    Stored(s).Some? && (s.declared.Some? ==> s.declared.value == h(Stored(s).value))
  }

  /** Sealing again after any interruption: it reaches SEALED exactly when the stores hold bytes of the
      declared digest, and then what is staged is what was accepted. */
  lemma SealAgainSucceedsIff(h: Hash, w: World, u: UploadId)
    requires Inv(h, w) && u in w.slots && w.slots[u].status.Sealing? && w.slots[u].flight.NoRequest?
    ensures var s := w.slots[u];
            var s' := SealAttempt(h, w, u).slots[u];
            && (s'.status.Sealed? <==> SealsCleanly(h, s))
            && (s'.status.Sealed? ==> s'.staged == Some(s.accepted) && s'.sha == Some(h(s.accepted)))
            && (!s'.status.Sealed? ==> s'.status.Sealing?)
  {
    var s := w.slots[u];
    assert SlotOk(h, s, w.now);
    SealedSlot(h, w.now, s);
  }

  lemma SealedSlot(h: Hash, now: int, s: Slot)
    requires SlotOk(h, s, now) && s.status.Sealing? && s.flight.NoRequest?
    ensures var moved := Apply(h, now, Apply(h, now, s, TouchEmpty), MoveFile);
            && SlotOk(h, moved, now) && moved.status.Sealing?
            && moved.accepted == s.accepted && moved.declared == s.declared
            && (moved.flight.FileMoved? <==> SealsCleanly(h, s))
  {
    var touched := Apply(h, now, s, TouchEmpty);
    SealStepOk(h, now, s, TouchEmpty);
    SealStepOk(h, now, touched, MoveFile);
    assert touched.status.Sealing? && touched.accepted == s.accepted && touched.reaped == s.reaped;
    assert Stored(s).Some? ==> Stored(s) == Some(s.accepted) == SealCandidate(touched);
  }

  // ----- When acknowledged bytes can be lost -----

  /** Bytes were acknowledged, the upload still counts as live, and no store holds them. */
  predicate Gone(s: Slot) {
    Live(s) && s.accepted != [] && s.file.None? && s.staged.None?
  }

  /** The same for good: an open upload has expired, so that nothing can be appended. */
  predicate GoneForGood(s: Slot, now: int) {
    && s.accepted != [] && !s.status.Sealed?
    && (s.status.Failed? || (s.file.None? && s.staged.None? && !s.flight.FileMoved? && !s.flight.Appending?))
    && (s.status.Open? ==> Expired(s, now))
    && |s.accepted| <= s.expectedSize
  }

  lemma GoneIsForGood(h: Hash, s: Slot, now: int)
    requires SlotOk(h, s, now) && Gone(s)
    ensures GoneForGood(s, now)
  {
  }

  lemma GoneApply(h: Hash, now: int, s: Slot, step: SlotStep)
    requires SlotOk(h, s, now) && GoneForGood(s, now)
    ensures GoneForGood(Apply(h, now, s, step), now)
  {
  }

  lemma GoneStep(h: Hash, w: World, e: Event, u: UploadId)
    requires Inv(h, w) && u in w.slots && GoneForGood(w.slots[u], w.now)
    ensures u in Step(h, w, e).slots && GoneForGood(Step(h, w, e).slots[u], Step(h, w, e).now)
  {
    hide Apply, SlotOk;
    assert SlotOk(h, w.slots[u], w.now);
    if e.On? && e.u == u {
      GoneApply(h, w.now, w.slots[u], e.step);
    } else if e == SealRow(u) {
      GoneIsNotMoved(h, w.slots[u], w.now);
    }
  }

  lemma GoneIsNotMoved(h: Hash, s: Slot, now: int)
    requires SlotOk(h, s, now) && GoneForGood(s, now)
    ensures !s.flight.FileMoved?
  {
  }

  lemma {:induction false} GoneRun(h: Hash, w: World, u: UploadId, events: seq<Event>)
    requires Inv(h, w) && u in w.slots && GoneForGood(w.slots[u], w.now)
    ensures var v := Run(h, w, events); Inv(h, v) && u in v.slots && GoneForGood(v.slots[u], v.now)
  {
    hide Step, Inv, GoneForGood;
    if events != [] {
      var n := |events| - 1;
      GoneRun(h, w, u, events[..n]);
      StepOk(h, Run(h, w, events[..n]), events[n]);
      GoneStep(h, Run(h, w, events[..n]), events[n], u);
    }
  }

  /** An upload whose acknowledged bytes are gone never becomes sealed, whatever follows. */
  lemma LostBytesNeverSeal(h: Hash, w: World, u: UploadId, events: seq<Event>)
    requires Inv(h, w) && u in w.slots && Gone(w.slots[u])
    ensures u in Run(h, w, events).slots && !Run(h, w, events).slots[u].status.Sealed?
  {
    hide Run, SlotOk;
    assert SlotOk(h, w.slots[u], w.now);
    GoneIsForGood(h, w.slots[u], w.now);
    GoneRun(h, w, u, events);
  }

  predicate NoTick(events: seq<Event>) {
    forall k :: 0 <= k < |events| ==> !events[k].Tick?
  }

  /** While an upload has not expired the reaper leaves its file alone, and so does everything else. */
  predicate Safe(s: Slot, expiresAt: int, now: int) {
    s.expiresAt == expiresAt && now < expiresAt && !s.reaped
  }

  lemma {:induction false} UnexpiredStaysSafe(h: Hash, w: World, u: UploadId, events: seq<Event>)
    requires u in w.slots && Safe(w.slots[u], w.slots[u].expiresAt, w.now) && NoTick(events)
    ensures var v := Run(h, w, events);
            u in v.slots && v.now == w.now && Safe(v.slots[u], w.slots[u].expiresAt, v.now)
  {
    hide Step;
    if events != [] {
      var n := |events| - 1;
      UnexpiredStaysSafe(h, w, u, events[..n]);
      SafeStep(h, Run(h, w, events[..n]), events[n], u, w.slots[u].expiresAt);
    }
  }

  lemma SafeStep(h: Hash, w: World, e: Event, u: UploadId, expiresAt: int)
    requires u in w.slots && Safe(w.slots[u], expiresAt, w.now) && !e.Tick?
    ensures var v := Step(h, w, e); u in v.slots && v.now == w.now && Safe(v.slots[u], expiresAt, v.now)
  {
  }

  lemma SafeIsNotGone(h: Hash, s: Slot, now: int)
    requires SlotOk(h, s, now) && !s.reaped
    ensures !Gone(s)
  {
  }

  /** Acknowledged bytes of an open upload can be gone at the present time, after any run in which the
      clock does not move, exactly when the upload has expired: the reaper unlinks the file, and the
      process dies before the row is committed. */
  lemma BytesCanBeLostIffExpired(h: Hash, w: World, u: UploadId)
    requires Inv(h, w) && u in w.slots && w.slots[u].status.Open? && w.slots[u].flight.NoRequest?
    requires w.slots[u].accepted != []
    ensures (exists events: seq<Event> :: NoTick(events) && u in Run(h, w, events).slots && Gone(Run(h, w, events).slots[u]))
       <==> Expired(w.slots[u], w.now)
  {
    hide Run, Step, SlotOk, Gone, Apply;
    assert SlotOk(h, w.slots[u], w.now);
    if Expired(w.slots[u], w.now) {
      ReapedBytesAreGone(h, w, u);
      var events := [On(u, ReapFile)] + [Crash];
      assert NoTick(events) && Gone(Run(h, w, events).slots[u]);
    } else {
      UnreapedBeforeExpiry(h, w.slots[u], w.now);
      forall events: seq<Event> | NoTick(events) && u in Run(h, w, events).slots
        ensures !Gone(Run(h, w, events).slots[u])
      {
        UnexpiredStaysSafe(h, w, u, events);
        InvStays(h, w, events);
        SafeIsNotGone(h, Run(h, w, events).slots[u], Run(h, w, events).now);
      }
    }
  }

  lemma UnreapedBeforeExpiry(h: Hash, s: Slot, now: int)
    requires SlotOk(h, s, now) && s.status.Open? && !Expired(s, now)
    ensures Safe(s, s.expiresAt, now)
  {
  }

  lemma {:induction false} InvStays(h: Hash, w: World, events: seq<Event>)
    requires Inv(h, w)
    ensures Inv(h, Run(h, w, events))
  {
    hide Step, Inv;
    if events != [] {
      InvStays(h, w, events[..|events| - 1]);
      StepOk(h, Run(h, w, events[..|events| - 1]), events[|events| - 1]);
    }
  }

  /** The reaper window: it unlinks before it commits, so a crash in between leaves an expired upload that
      is still open, with acknowledged bytes that nobody holds. */
  lemma ReapedBytesAreGone(h: Hash, w: World, u: UploadId)
    requires Inv(h, w) && u in w.slots && w.slots[u].status.Open? && w.slots[u].flight.NoRequest?
    requires Expired(w.slots[u], w.now) && w.slots[u].accepted != []
    ensures var v := Run(h, w, [On(u, ReapFile)] + [Crash]);
            && Inv(h, v) && u in v.slots && v.slots[u].status.Open? && Gone(v.slots[u])
            && v.slots[u].accepted == w.slots[u].accepted
  {
    hide Run, Inv;
    var reap := On(u, ReapFile);
    RunAppend(h, w, [], reap);
    RunAppend(h, w, [reap], Crash);
    RunNothing(h, w);
    assert [] + [reap] == [reap];
    StepOk(h, w, reap);
    StepOk(h, Step(h, w, reap), Crash);
    ReapThenCrash(h, w, u);
  }

  lemma RunNothing(h: Hash, w: World)
    ensures Run(h, w, []) == w
  {
  }

  lemma ReapThenCrash(h: Hash, w: World, u: UploadId)
    requires Inv(h, w) && u in w.slots && w.slots[u].status.Open? && w.slots[u].flight.NoRequest?
    requires Expired(w.slots[u], w.now) && w.slots[u].accepted != []
    ensures var v := Step(h, Step(h, w, On(u, ReapFile)), Crash);
            u in v.slots && v.slots[u].status.Open? && Gone(v.slots[u])
            && v.slots[u].accepted == w.slots[u].accepted
  {
    assert SlotOk(h, w.slots[u], w.now);
  }

  /** After a process died inside an append, the upload accepts another chunk only if the file
      happens to have the recorded length. */
  lemma TornUploadAcceptsIff(h: Hash, w: World, u: UploadId, offset: nat)
    requires Inv(h, w) && u in w.slots && w.slots[u].status.Open? && w.slots[u].flight.NoRequest?
    ensures var s := w.slots[u];
            Apply(h, w.now, s, BeginAppend(offset)).flight.Appending? <==>
            s.expiresAt > w.now && offset == s.receivedSize && (s.file.Some? ==> s.file.value == s.accepted)
  {
    var s := w.slots[u];
    assert SlotOk(h, s, w.now);
    if s.file.Some? && |s.file.value| == |s.accepted| {
      assert s.file.value == s.accepted;
    }
  }
}
