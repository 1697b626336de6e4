/** Planning and executing a cleanup as the service object does (src/mnema/domain/icloud_cleanup.py).
    Each call is a run of the cleanup machine. */
module CleanupService {
  import opened Basics
  import opened Gate
  import opened CleanupPlan
  import opened CleanupRun

  datatype Outcome = Refused | NeedsReview | Done

  /** Everything execute wants before it sends anything. */
  predicate WillExecute(h: Hash, s: Settings, w: World, m: nat, digest: Digest, healthy: bool, aboveTrigger: bool)
    requires Sane(s)
  {
    && CanApprove(s, w, m, digest, healthy, aboveTrigger)
    && forall k :: 0 <= k < |w.manifests[m].entries| ==> EntryOk(h, s, w, w.manifests[m], w.remote, w.now, k)
  }

  lemma ValidateStepIs(h: Hash, s: Settings, w: World)
    requires Shaped(w) && Sane(s) && w.phase.Validating? && w.phase.k < |w.manifests[w.phase.m].entries|
    ensures var p := w.phase;
            Step(h, s, w, Validate) ==
            if EntryOk(h, s, w, w.manifests[p.m], p.current, p.at, p.k)
            then w.(phase := Validating(p.m, p.at, p.current, p.k + 1), checked := w.checked + {Call(p.m, p.k)})
            else w.(phase := Idle)
  {
    hide EntryOk;
  }

  lemma UsageGrows(entries: seq<Entry>, k: nat)
    requires k < |entries|
    ensures var u := UsageAt(EntrySizes(entries), k);
            UsageAt(EntrySizes(entries), k + 1)
            == DeletionRunUsage(u.filesDeleted + 1, u.bytesDeleted + entries[k].size, u.eligibleFiles)
  {
  }

  class Service {
    const h: Hash
    const s: Settings
    var manifests: seq<Manifest>
    var assets: map<AssetId, Asset>
    var files: Files
    var remote: map<AssetId, Remote>
    var deletionEnabled: bool
    var safetyLock: bool
    var now: int
    ghost var books: seq<Book>
    ghost var phase: Phase
    ghost var calls: seq<Call>
    ghost var checked: set<Call>

    constructor (h: Hash, s: Settings)
      ensures this.h == h && this.s == s && Now() == EMPTY
    {
      this.h, this.s := h, s;
      manifests, assets, files, remote := [], map[], map[], map[];
      deletionEnabled, safetyLock, now := false, true, 0;
      books, phase, calls, checked := [], Idle, [], {};
    }

    ghost function Now(): World reads this {
      World(manifests, books, assets, files, remote, deletionEnabled, safetyLock, now, phase, calls, checked)
    }

    /** The checks on one entry, in the order of the code. */
    method CheckEntry(m: nat, at: int, current: map<AssetId, Remote>, k: nat, usage: DeletionRunUsage)
      returns (ok: bool)
      requires m < |manifests| && k < |manifests[m].entries| && Sane(s)
      requires usage == UsageAt(EntrySizes(manifests[m].entries), k)
      ensures ok <==> EntryOk(h, s, Now(), manifests[m], current, at, k)
      ensures ok <==>
        var e := manifests[m].entries[k];
        && e.asset in current && !current[e.asset].favorite
        && current[e.asset].recordName == e.recordName && current[e.asset].changeTag == e.changeTag
        && e.asset in assets && Archived(h, files, s, assets[e.asset], at)
        && assets[e.asset].components != [] && ReceiptsOf(e.evidence, assets[e.asset].components)
        && s.reliefEnabled && k < s.maxAssets
        && Total(EntrySizes(manifests[m].entries), k) + e.size <= Share(manifests[m].quota, s.maxQuotaPercent)
    {
      EntryOkIff(h, s, Now(), manifests[m], current, at, k);
      hide Eligible, Facts, Evidence, GateOpen, Total, Archived, ReceiptsOf;
      var entry := manifests[m].entries[k];
      if entry.asset !in current || current[entry.asset].favorite {
        return false;
      }
      if current[entry.asset].recordName != entry.recordName || current[entry.asset].changeTag != entry.changeTag {
        return false;
      }
      if entry.asset !in assets || !Eligible(h, files, s, assets[entry.asset], at) {
        return false;
      }
      if Evidence(assets[entry.asset]) != entry.evidence {
        return false;
      }
      var cap := Share(manifests[m].quota, s.maxQuotaPercent);
      var decision := EvaluateDeletionGate(
        Facts(h, files, s, assets[entry.asset], true, at), usage, RunLimits(cap, s.maxAssets), entry.size, at);
      ok := decision.allowed;
    }

    /** Checks one entry; when it passes, the gate sees more usage at the next. */
    method ValidateEntry(m: nat, at: int, current: map<AssetId, Remote>, k: nat, usage: DeletionRunUsage)
      returns (ok: bool, next: DeletionRunUsage)
      requires Inv(Now()) && Sane(s) && phase == Validating(m, at, current, k)
      requires m < |manifests| && k < |manifests[m].entries|
      requires usage == UsageAt(EntrySizes(manifests[m].entries), k)
      modifies this`phase, this`checked
      ensures Inv(Now()) && Now() == Step(h, s, old(Now()), Validate)
      ensures ok <==> EntryOk(h, s, old(Now()), manifests[m], current, at, k)
      ensures phase == if ok then Validating(m, at, current, k + 1) else Idle
      ensures ok ==> next == UsageAt(EntrySizes(manifests[m].entries), k + 1)
    {
      hide Inv, EntryOk, Step, UsageAt, EntrySizes;
      ghost var w := Now();
      InvParts(w);
      StepKeepsInv(h, s, w, Validate);
      ValidateStepIs(h, s, w);
      UsageGrows(manifests[m].entries, k);
      ok := CheckEntry(m, at, current, k, usage);
      next := usage;
      if ok {
        var entry := manifests[m].entries[k];
        next := DeletionRunUsage(usage.filesDeleted + 1, usage.bytesDeleted + entry.size, usage.eligibleFiles);
        checked := checked + {Call(m, k)};
        phase := Validating(m, at, current, k + 1);
      } else {
        phase := Idle;
      }
    }

    /** The first loop of execute: it sends nothing. */
    method ValidateEntries(m: nat, ghost trace: seq<Event>, ghost start: World)
      returns (ok: bool, ghost trace': seq<Event>)
      requires Inv(Now()) && Inv(start) && Sane(s) && m < |manifests|
      requires phase == Validating(m, now, remote, 0)
      requires Shaped(start) && Now() == Run(h, s, start, trace)
      modifies this`phase, this`checked
      ensures Inv(Now()) && Now() == Run(h, s, start, trace')
      ensures ok <==> forall k :: 0 <= k < |manifests[m].entries| ==> EntryOk(h, s, old(Now()), manifests[m], remote, now, k)
      ensures phase == if ok then Validating(m, now, remote, |manifests[m].entries|) else Idle
    {
      hide Inv, Step, Run, EntryOk;
      trace' := trace;
      ghost var first := Now();
      var entries := manifests[m].entries;
      var usage := DeletionRunUsage(0, 0, |entries|);
      var k := 0;
      while k < |entries|
        invariant 0 <= k <= |entries|
        invariant Inv(Now()) && Now() == Run(h, s, start, trace')
        invariant phase == Validating(m, now, remote, k)
        invariant usage == UsageAt(EntrySizes(entries), k)
        invariant forall j :: 0 <= j < k ==> EntryOk(h, s, first, manifests[m], remote, now, j)
      {
        ok, usage := ValidateEntry(m, now, remote, k, usage);
        RunAppend(h, s, start, trace', Validate);
        trace' := trace' + [Validate];
        SameCheck(h, s, first, Now(), m, k);
        if !ok {
          return;
        }
        k := k + 1;
      }
      ok := true;
    }

    /** One delete call; the reply, or the exception, is up to the network. */
    method SendEntry(m: nat, k: nat) returns (confirmed: bool)
      requires Inv(Now()) && Sane(s) && m < |manifests| && k < |manifests[m].entries|
      requires phase == Deleting(m, k)
      modifies this`phase, this`calls, this`books
      ensures Inv(Now()) && Now() == Step(h, s, old(Now()), Send(confirmed))
      ensures calls == old(calls) + [Call(m, k)] && phase == Replied(m, k, confirmed)
    {
      hide Inv, Step;
      confirmed := *;
      ghost var w := Now();
      InvParts(w);
      StepKeepsInv(h, s, w, Send(confirmed));
      SendStepIs(h, s, w, confirmed);
      calls := calls + [Call(m, k)];
      books := books[m := books[m].(sent := books[m].sent + 1)];
      phase := Replied(m, k, confirmed);
    }

    /** The entry is done: it and its asset carry the time, in one commit. */
    method RecordEntry(m: nat, k: nat)
      requires Inv(Now()) && Sane(s) && m < |manifests| && k < |manifests[m].entries|
      requires phase == Replied(m, k, true)
      modifies this`manifests, this`assets, this`phase, this`books
      ensures Inv(Now()) && Now() == Step(h, s, old(Now()), Record)
      ensures phase == Deleting(m, k + 1)
      ensures manifests == old(manifests)[m := old(manifests)[m].(entries := manifests[m].entries)]
      ensures var e := old(manifests)[m].entries[k];
              && manifests[m].entries == old(manifests)[m].entries[k := e.(completed := true)]
              && assets == if e.asset in old(assets)
                           then old(assets)[e.asset := old(assets)[e.asset].(remotelyDeletedAt := Some(now))] else old(assets)
    {
      hide Inv, Step;
      ghost var w := Now();
      InvParts(w);
      StepKeepsInv(h, s, w, Record);
      RecordStepIs(h, s, w);
      var entry := manifests[m].entries[k];
      manifests := manifests[m := manifests[m].(entries := manifests[m].entries[k := entry.(completed := true)])];
      if entry.asset in assets {
        assets := assets[entry.asset := assets[entry.asset].(remotelyDeletedAt := Some(now))];
      }
      books := books[m := books[m].(done := books[m].done + 1)];
      phase := Deleting(m, k + 1);
    }

    /** Sets the manifest aside and closes both switches, in one commit. */
    method ManualReviewOf(m: nat, k: nat)
      requires Inv(Now()) && Sane(s) && m < |manifests| && k < |manifests[m].entries|
      requires phase == Replied(m, k, false)
      modifies this`manifests, this`deletionEnabled, this`safetyLock, this`phase
      ensures Inv(Now()) && Now() == Step(h, s, old(Now()), Review)
      ensures !deletionEnabled && safetyLock && phase.Idle?
      ensures |manifests| == |old(manifests)| && manifests[m].entries == old(manifests)[m].entries
      ensures manifests[m].status == if k > 0 then Partial else ManualReview
    {
      hide Inv, Step;
      ghost var w := Now();
      InvParts(w);
      StepKeepsInv(h, s, w, Review);
      ReviewStepIs(h, s, w);
      var some := exists j :: 0 <= j < |manifests[m].entries| && manifests[m].entries[j].completed;
      SomeCompletedIff(w);
      manifests := manifests[m := manifests[m].(status := if some then Partial else ManualReview)];
      deletionEnabled := false;
      safetyLock := true;
      phase := Idle;
    }

    method SetStatus(m: nat, e: Event)
      requires Inv(Now()) && Sane(s) && m < |manifests| && (e.Begin? || e.Finish?)
      requires e.Begin? ==> phase.Validating? && phase.m == m && phase.k == |manifests[m].entries|
      requires e.Finish? ==> phase == Deleting(m, |manifests[m].entries|)
      modifies this`manifests, this`phase
      ensures Inv(Now()) && Now() == Step(h, s, old(Now()), e)
      ensures phase == if e.Begin? then Deleting(m, 0) else Idle
      ensures |manifests| == |old(manifests)| && manifests[m].entries == old(manifests)[m].entries
      ensures manifests[m].status == if e.Begin? then Executing else Completed
    {
      hide Inv, Step;
      ghost var w := Now();
      InvParts(w);
      StepKeepsInv(h, s, w, e);
      StatusStepIs(h, s, w, e);
      manifests := manifests[m := manifests[m].(status := if e.Begin? then Executing else Completed)];
      phase := if e.Begin? then Deleting(m, 0) else Idle;
    }

    /** The second loop: one call and one commit for each entry, in order, until something is unclear. */
    method DeleteEntries(m: nat, ghost trace: seq<Event>, ghost start: World)
      returns (r: Outcome, n: nat, ghost trace': seq<Event>)
      requires Inv(Now()) && Inv(start) && Sane(s) && m < |manifests| && phase == Deleting(m, 0)
      requires Shaped(start) && Now() == Run(h, s, start, trace)
      modifies this`manifests, this`assets, this`phase, this`books, this`calls
      modifies this`deletionEnabled, this`safetyLock
      ensures Inv(Now()) && Now() == Run(h, s, start, trace')
      ensures |manifests| == |old(manifests)| && !r.Refused?
      ensures calls == old(calls) + FirstCalls(m, n)
      ensures r.Done? ==> n == |manifests[m].entries| && phase == Deleting(m, n)
      ensures r.NeedsReview? ==> n > 0 && phase.Idle? && !deletionEnabled && safetyLock
      ensures r.NeedsReview? ==> manifests[m].status == if n > 1 then Partial else ManualReview
    {
      hide Inv, Step, Run, FirstCalls;
      trace' := trace;
      n := 0;
      NoCalls(m);
      while n < |manifests[m].entries|
        invariant |manifests| == |old(manifests)| && |manifests[m].entries| == |old(manifests)[m].entries|
        invariant n <= |manifests[m].entries|
        invariant Inv(Now()) && Now() == Run(h, s, start, trace')
        invariant phase == Deleting(m, n)
        invariant calls == old(calls) + FirstCalls(m, n)
        decreases |manifests[m].entries| - n
      {
        var confirmed := SendEntry(m, n);
        RunAppend(h, s, start, trace', Send(confirmed));
        trace' := trace' + [Send(confirmed)];
        OneMoreCall(m, n);
        if !confirmed {
          ManualReviewOf(m, n);
          RunAppend(h, s, start, trace', Review);
          trace' := trace' + [Review];
          n := n + 1;
          r := NeedsReview;
          return;
        }
        RecordEntry(m, n);
        RunAppend(h, s, start, trace', Record);
        trace' := trace' + [Record];
        n := n + 1;
      }
      r := Done;
    }

    /** The guards before any entry is looked at; an expired manifest is refused without a trace,
        because the status set just before the exception is rolled back with it. */
    method Admit(m: nat, digest: Digest, healthy: bool, aboveTrigger: bool) returns (ok: bool)
      requires Inv(Now()) && Sane(s) && phase.Idle?
      modifies this`phase
      ensures Inv(Now()) && Now() == Step(h, s, old(Now()), Approve(m, digest, healthy, aboveTrigger))
      ensures ok <==> CanApprove(s, old(Now()), m, digest, healthy, aboveTrigger)
      ensures ok <==> && s.milestoneApproved
                      && m < |manifests| && manifests[m].digest == digest
                      && manifests[m].status.PendingApproval? && now < manifests[m].expiresAt
                      && healthy && deletionEnabled && !safetyLock && aboveTrigger
      ensures ok ==> m < |manifests|
      ensures phase == if ok then Validating(m, now, remote, 0) else Idle
    {
      hide Inv, Step;
      ghost var w := Now();
      InvParts(w);
      StepKeepsInv(h, s, w, Approve(m, digest, healthy, aboveTrigger));
      ApproveStepIs(h, s, w, m, digest, healthy, aboveTrigger);
      if !s.milestoneApproved {
        return false;
      }
      if m >= |manifests| || manifests[m].digest != digest {
        return false;
      }
      if !manifests[m].status.PendingApproval? || manifests[m].expiresAt <= now {
        return false;
      }
      if !(healthy && deletionEnabled && !safetyLock) || !aboveTrigger {
        return false;
      }
      phase := Validating(m, now, remote, 0);
      ok := true;
    }

    /** Guards and validation: it is willing exactly when everything holds, and it sends nothing. */
    method Vet(m: nat, digest: Digest, healthy: bool, aboveTrigger: bool) returns (ok: bool, ghost trace: seq<Event>)
      requires Inv(Now()) && Sane(s) && phase.Idle?
      modifies this`phase, this`checked
      ensures Inv(Now()) && Shaped(old(Now())) && Now() == Run(h, s, old(Now()), trace)
      ensures ok <==> WillExecute(h, s, old(Now()), m, digest, healthy, aboveTrigger)
      ensures ok ==> m < |manifests|
      ensures phase == if ok then Validating(m, now, remote, |manifests[m].entries|) else Idle
    {
      hide Inv, Step, Run, EntryOk, CanApprove;
      ghost var start := Now();
      InvParts(start);
      RunNothing(h, s, start);
      RunAppend(h, s, start, [], Approve(m, digest, healthy, aboveTrigger));
      ok := Admit(m, digest, healthy, aboveTrigger);
      trace := [] + [Approve(m, digest, healthy, aboveTrigger)];
      if ok {
        SameChecks(h, s, start, Now(), m);
        ok, trace := ValidateEntries(m, trace, start);
      }
    }

    /** Commits the intent, deletes one by one, and closes the manifest when all went through. */
    method DeleteVetted(m: nat, ghost past: seq<Event>, ghost start: World)
      returns (r: Outcome, n: nat, ghost trace: seq<Event>)
      requires Inv(Now()) && Inv(start) && Sane(s) && m < |manifests|
      requires phase == Validating(m, now, remote, |manifests[m].entries|)
      requires Shaped(start) && Now() == Run(h, s, start, past)
      modifies this`manifests, this`assets, this`phase, this`books, this`calls
      modifies this`deletionEnabled, this`safetyLock
      ensures Inv(Now()) && Now() == Run(h, s, start, trace)
      ensures phase.Idle? && |manifests| == |old(manifests)| && !r.Refused?
      ensures calls == old(calls) + FirstCalls(m, n)
      ensures r.Done? ==> manifests[m].status.Completed? && n == |manifests[m].entries|
      ensures r.NeedsReview? ==> n > 0 && manifests[m].status == if n > 1 then Partial else ManualReview
      ensures r.NeedsReview? ==> !deletionEnabled && safetyLock
    {
      hide Inv, Step, Run, FirstCalls;
      SetStatus(m, Begin);
      RunAppend(h, s, start, past, Begin);
      r, n, trace := DeleteEntries(m, past + [Begin], start);
      if r.Done? {
        SetStatus(m, Finish);
        RunAppend(h, s, start, trace, Finish);
        trace := trace + [Finish];
      }
    }

    /** Validates everything, commits the intent, then deletes one by one. It refuses exactly when
        something is missing, and then it has sent nothing and changed no manifest. */
    method Execute(m: nat, digest: Digest, healthy: bool, aboveTrigger: bool)
      returns (r: Outcome, n: nat, ghost trace: seq<Event>)
      requires Inv(Now()) && Sane(s) && phase.Idle?
      modifies this
      ensures Inv(Now()) && Shaped(old(Now())) && Now() == Run(h, s, old(Now()), trace)
      ensures r.Refused? <==> !WillExecute(h, s, old(Now()), m, digest, healthy, aboveTrigger)
      ensures r.Refused? ==> manifests == old(manifests) && calls == old(calls)
      ensures phase.Idle? && |manifests| == |old(manifests)|
      ensures !r.Refused? ==> m < |manifests| && calls == old(calls) + FirstCalls(m, n)
      ensures r.Done? ==> manifests[m].status.Completed? && n == |manifests[m].entries|
      ensures r.NeedsReview? ==> n > 0 && manifests[m].status == if n > 1 then Partial else ManualReview
      ensures r.NeedsReview? ==> !deletionEnabled && safetyLock
    {
      hide Inv, Step, Run, FirstCalls, WillExecute;
      ghost var start := Now();
      n := 0;
      var ok: bool;
      ok, trace := Vet(m, digest, healthy, aboveTrigger);
      if !ok {
        return Refused, n, trace;
      }
      r, n, trace := DeleteVetted(m, trace, start);
    }
  }

  lemma ApproveStepIs(h: Hash, s: Settings, w: World, m: nat, digest: Digest, healthy: bool, aboveTrigger: bool)
    requires Shaped(w) && Sane(s)
    ensures Step(h, s, w, Approve(m, digest, healthy, aboveTrigger)) ==
            if CanApprove(s, w, m, digest, healthy, aboveTrigger)
            then w.(phase := Validating(m, w.now, w.remote, 0)) else w
  {
  }

  lemma SendStepIs(h: Hash, s: Settings, w: World, confirmed: bool)
    requires Shaped(w) && Sane(s) && w.phase.Deleting? && w.phase.k < |w.manifests[w.phase.m].entries|
    ensures Step(h, s, w, Send(confirmed))
         == w.(calls := w.calls + [Call(w.phase.m, w.phase.k)],
               books := w.books[w.phase.m := w.books[w.phase.m].(sent := w.books[w.phase.m].sent + 1)],
               phase := Replied(w.phase.m, w.phase.k, confirmed))
  {
  }

  lemma RecordStepIs(h: Hash, s: Settings, w: World)
    requires Shaped(w) && Sane(s) && w.phase.Replied? && w.phase.confirmed
    ensures Step(h, s, w, Record) == Recorded(w)
  {
  }

  lemma ReviewStepIs(h: Hash, s: Settings, w: World)
    requires Inv(w) && Sane(s) && w.phase.Replied? && !w.phase.confirmed
    ensures Shaped(w)
    ensures Step(h, s, w, Review)
         == WithStatus(w, w.phase.m, if w.phase.k > 0 then Partial else ManualReview)
            .(deletionEnabled := false, safetyLock := true, phase := Idle)
  {
    SomeCompletedIff(w);
    hide Inv;
  }

  lemma StatusStepIs(h: Hash, s: Settings, w: World, e: Event)
    requires Shaped(w) && Sane(s) && (e.Begin? || e.Finish?)
    ensures Step(h, s, w, e) == if e.Begin? then Begun(w) else Finished(w)
  {
  }

  lemma SomeCompletedIff(w: World)
    requires Inv(w) && w.phase.Replied?
    ensures (exists j :: 0 <= j < |w.manifests[w.phase.m].entries| && w.manifests[w.phase.m].entries[j].completed)
       <==> w.phase.k > 0
  {
    assert ManifestOk(w, w.manifests[w.phase.m], w.books[w.phase.m]);
    if w.phase.k > 0 {
      assert w.manifests[w.phase.m].entries[0].completed;
    }
  }

  lemma SameChecks(h: Hash, s: Settings, w: World, v: World, m: nat)
    requires Sane(s) && v.assets == w.assets && v.files == w.files && m < |w.manifests|
    ensures forall k :: 0 <= k < |w.manifests[m].entries| ==>
              (EntryOk(h, s, v, w.manifests[m], w.remote, w.now, k) <==> EntryOk(h, s, w, w.manifests[m], w.remote, w.now, k))
  {
    hide Eligible, Facts, GateOpen, Evidence, EntrySizes;
  }

  /** Validation reads the assets and the files, and nothing it changes itself. */
  lemma SameCheck(h: Hash, s: Settings, w: World, v: World, m: nat, k: nat)
    requires Sane(s) && v.assets == w.assets && v.files == w.files && m < |w.manifests|
    requires k < |w.manifests[m].entries|
    ensures forall x: World, c, at :: x.assets == w.assets && x.files == w.files ==>
              (EntryOk(h, s, x, w.manifests[m], c, at, k) <==> EntryOk(h, s, w, w.manifests[m], c, at, k))
  {
    hide Eligible, Facts, GateOpen, Evidence, EntrySizes;
  }
}
