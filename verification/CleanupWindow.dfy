/** When a cleanup can send deletes at all, and so what an ambiguous reply stops
    (src/mnema/domain/icloud_cleanup.py, src/mnema/cli.py). A reply whose review is committed stops every
    delete until deletion is resumed; a reply that dies with its process stops them exactly when they
    were stopped already. */
module CleanupWindow {
  import opened Basics
  import opened States
  import opened Gate
  import opened CleanupPlan
  import opened CleanupRun

  /** The guard of the approval command: the two switches, the milestone and the relief setting. */
  predicate MayDelete(s: Settings, w: World) {
    s.milestoneApproved && s.reliefEnabled && w.deletionEnabled && !w.safetyLock
  }

  predicate Unresumed(events: seq<Event>) {
    forall i :: 0 <= i < |events| ==> !events[i].Resume?
  }

  /** Whatever happens, short of resuming deletion, no delete is sent from here. */
  ghost predicate SendsNothing(h: Hash, s: Settings, w: World)
    requires Shaped(w) && Sane(s)
  {
    forall events: seq<Event> :: Unresumed(events) ==> Run(h, s, w, events).calls == w.calls
  }

  // ---------------------------------------------------------------- a shut guard

  /** No entry has passed validation, and none is there to be deleted. */
  predicate NothingUnderway(w: World)
    requires Shaped(w)
  {
    match w.phase
    case Idle => true
    case Validating(_, _, _, k) => k == 0
    case Deleting(m, _) => w.manifests[m].entries == []
    case Replied(_, _, _) => false
  }

  predicate Still(s: Settings, w: World)
    requires Shaped(w)
  {
    w.phase.Idle? || (!s.reliefEnabled && NothingUnderway(w))
  }

  lemma NoReliefNoEntry(h: Hash, s: Settings, w: World, m: Manifest, current: map<AssetId, Remote>, at: int, k: nat)
    requires k < |m.entries| && Sane(s) && !s.reliefEnabled
    ensures !EntryOk(h, s, w, m, current, at, k)
  {
    hide Eligible, Evidence, WithinLimits, EntrySizes, LatestCold;
  }

  lemma StillValidates(h: Hash, s: Settings, w: World)
    requires Shaped(w) && Sane(s) && Still(s, w)
    ensures Still(s, Validated(h, s, w)) && Still(s, Begun(w)) && Still(s, Finished(w)) && Still(s, Reviewed(w))
    ensures Recorded(w) == w && Sent(w, true) == w && Sent(w, false) == w
  {
    hide EntryOk;
    if w.phase.Validating? && w.phase.k < |w.manifests[w.phase.m].entries| {
      NoReliefNoEntry(h, s, w, w.manifests[w.phase.m], w.phase.current, w.phase.at, w.phase.k);
    }
  }

  lemma ShutStep(h: Hash, s: Settings, w: World, e: Event)
    requires Shaped(w) && Sane(s) && !MayDelete(s, w) && Still(s, w) && !e.Resume?
    ensures var v := Step(h, s, w, e); !MayDelete(s, v) && Still(s, v) && v.calls == w.calls
  {
    StillValidates(h, s, w);
    if e.Validate? || e.Begin? || e.Send? || e.Record? || e.Review? || e.Finish? {
      ExecutorKeepsGuard(h, s, w, e);
    }
    hide Validated, Begun, Sent, Recorded, Reviewed, Finished, FreshManifest, Lapsed;
  }

  /** The executor itself only ever closes the switches. */
  lemma ExecutorKeepsGuard(h: Hash, s: Settings, w: World, e: Event)
    requires Shaped(w) && Sane(s) && !MayDelete(s, w)
    requires e.Validate? || e.Begin? || e.Send? || e.Record? || e.Review? || e.Finish?
    ensures !MayDelete(s, Step(h, s, w, e))
  {
    hide EntryOk, MarkDeleted;
  }

  lemma {:induction false} ShutRun(h: Hash, s: Settings, w: World, events: seq<Event>)
    requires Shaped(w) && Sane(s) && !MayDelete(s, w) && Still(s, w) && Unresumed(events)
    ensures var v := Run(h, s, w, events); !MayDelete(s, v) && Still(s, v) && v.calls == w.calls
  {
    hide Step, MayDelete, Still;
    if events != [] {
      var n := |events| - 1;
      ShutRun(h, s, w, events[..n]);
      ShutStep(h, s, Run(h, s, w, events[..n]), events[n]);
    }
  }

  // ---------------------------------------------------------------- an open guard

  lemma {:induction false} RunSplit(h: Hash, s: Settings, w: World, a: seq<Event>, b: seq<Event>)
    requires Shaped(w) && Sane(s)
    ensures Run(h, s, w, a + b) == Run(h, s, Run(h, s, w, a), b)
  {
    hide Step;
    if b == [] {
      assert a + b == a;
    } else {
      var n := |b| - 1;
      RunSplit(h, s, w, a, b[..n]);
      assert a + b == (a + b[..n]) + [b[n]];
      RunAppend(h, s, w, a + b[..n], b[n]);
    }
  }

  lemma RunOne(h: Hash, s: Settings, w: World, e: Event)
    requires Shaped(w) && Sane(s)
    ensures Run(h, s, w, [e]) == Step(h, s, w, e)
  {
    hide Step;
    RunAppend(h, s, w, [], e);
    assert [] + [e] == [e];
  }

  function Times(e: Event, n: nat): (r: seq<Event>)
    ensures |r| == n && forall i :: 0 <= i < n ==> r[i] == e
  {
    seq(n, _ => e)
  }

  lemma OnceMore(e: Event, n: nat)
    ensures Times(e, n + 1) == Times(e, n) + [e]
  {
  }

  /** Every entry of a manifest passes. */
  predicate AllOk(h: Hash, s: Settings, w: World, m: Manifest, current: map<AssetId, Remote>, at: int)
    requires Sane(s)
  {
    forall k :: 0 <= k < |m.entries| ==> EntryOk(h, s, w, m, current, at, k)
  }

  /** Validation looks at the assets and the files only. */
  lemma SameEntryOk(h: Hash, s: Settings, w: World, v: World, m: Manifest, current: map<AssetId, Remote>, at: int, k: nat)
    requires Sane(s) && k < |m.entries| && v.assets == w.assets && v.files == w.files
    ensures EntryOk(h, s, v, m, current, at, k) <==> EntryOk(h, s, w, m, current, at, k)
  {
    hide Eligible, Facts, GateOpen, Evidence, EntrySizes;
  }

  lemma {:induction false} ValidatesAll(h: Hash, s: Settings, w: World, n: nat)
    requires Shaped(w) && Sane(s) && w.phase.Validating? && w.phase.k == 0
    requires n <= |w.manifests[w.phase.m].entries|
    requires AllOk(h, s, w, w.manifests[w.phase.m], w.phase.current, w.phase.at)
    ensures var v := Run(h, s, w, Times(Validate, n));
            v == w.(phase := Validating(w.phase.m, w.phase.at, w.phase.current, n), checked := v.checked)
  {
    hide EntryOk, Step;
    if n > 0 {
      ValidatesAll(h, s, w, n - 1);
      OnceMore(Validate, n - 1);
      RunAppend(h, s, w, Times(Validate, n - 1), Validate);
      var u := Run(h, s, w, Times(Validate, n - 1));
      SameEntryOk(h, s, w, u, w.manifests[w.phase.m], w.phase.current, w.phase.at, n - 1);
      ValidateStepOk(h, s, u);
    }
  }

  lemma ValidateStepOk(h: Hash, s: Settings, w: World)
    requires Shaped(w) && Sane(s) && w.phase.Validating? && w.phase.k < |w.manifests[w.phase.m].entries|
    requires EntryOk(h, s, w, w.manifests[w.phase.m], w.phase.current, w.phase.at, w.phase.k)
    ensures var v := Step(h, s, w, Validate);
            v == w.(phase := Validating(w.phase.m, w.phase.at, w.phase.current, w.phase.k + 1), checked := v.checked)
  {
    hide EntryOk;
  }

  /** From an idle executor up to the first delete of manifest m. */
  function Opening(m: nat, digest: Digest, n: nat): seq<Event> {
    [Approve(m, digest, true, true)] + Times(Validate, n) + [Begin]
  }

  lemma OpeningRun(h: Hash, s: Settings, w: World, m: nat)
    requires Shaped(w) && Sane(s) && w.phase.Idle? && MayDelete(s, w)
    requires m < |w.manifests| && w.manifests[m].status.PendingApproval? && w.manifests[m].expiresAt > w.now
    requires AllOk(h, s, w, w.manifests[m], w.remote, w.now)
    ensures var v := Run(h, s, w, Opening(m, w.manifests[m].digest, |w.manifests[m].entries|));
            && v.phase == Deleting(m, 0) && v.calls == w.calls && MayDelete(s, v)
            && m < |v.manifests| && v.manifests[m].entries == w.manifests[m].entries
  {
    hide EntryOk, Run;
    var n := |w.manifests[m].entries|;
    var approve := Approve(m, w.manifests[m].digest, true, true);
    var x := w.(phase := Validating(m, w.now, w.remote, 0));
    RunOne(h, s, w, approve);
    ApproveOpens(h, s, w, m);
    forall k | 0 <= k < n ensures EntryOk(h, s, x, x.manifests[m], w.remote, w.now, k) {
      SameEntryOk(h, s, w, x, w.manifests[m], w.remote, w.now, k);
    }
    ValidatesAll(h, s, x, n);
    RunSplit(h, s, w, [approve], Times(Validate, n));
    RunAppend(h, s, w, [approve] + Times(Validate, n), Begin);
    BeginOpens(h, s, Run(h, s, x, Times(Validate, n)));
  }

  lemma ApproveOpens(h: Hash, s: Settings, w: World, m: nat)
    requires Shaped(w) && Sane(s) && w.phase.Idle? && MayDelete(s, w)
    requires m < |w.manifests| && w.manifests[m].status.PendingApproval? && w.manifests[m].expiresAt > w.now
    ensures Step(h, s, w, Approve(m, w.manifests[m].digest, true, true))
         == w.(phase := Validating(m, w.now, w.remote, 0))
  {
  }

  lemma BeginOpens(h: Hash, s: Settings, w: World)
    requires Shaped(w) && Sane(s) && w.phase.Validating? && w.phase.k == |w.manifests[w.phase.m].entries|
    ensures Step(h, s, w, Begin) == WithStatus(w, w.phase.m, Executing).(phase := Deleting(w.phase.m, 0))
  {
  }

  lemma SendRecords(h: Hash, s: Settings, w: World)
    requires Shaped(w) && Sane(s) && w.phase.Deleting? && w.phase.k < |w.manifests[w.phase.m].entries|
    ensures var m, k := w.phase.m, w.phase.k;
            var v := Step(h, s, Step(h, s, w, Send(true)), Record);
            && v.phase == Deleting(m, k + 1) && v.calls == w.calls + [Call(m, k)]
            && m < |v.manifests| && |v.manifests[m].entries| == |w.manifests[m].entries|
  {
    hide MarkDeleted;
  }

  /** n deletes, each confirmed and recorded. */
  function SendAll(n: nat): seq<Event> {
    if n == 0 then [] else SendAll(n - 1) + [Send(true)] + [Record]
  }

  lemma {:induction false} SendAllRun(h: Hash, s: Settings, w: World, n: nat)
    requires Shaped(w) && Sane(s) && w.phase.Deleting? && w.phase.k == 0
    requires n <= |w.manifests[w.phase.m].entries|
    ensures var m := w.phase.m;
            var v := Run(h, s, w, SendAll(n));
            && v.phase == Deleting(m, n) && v.calls == w.calls + FirstCalls(m, n)
            && m < |v.manifests| && |v.manifests[m].entries| == |w.manifests[m].entries|
  {
    hide Step, FirstCalls, Run;
    if n == 0 {
      RunNothing(h, s, w);
      NoCalls(w.phase.m);
    } else {
      SendAllRun(h, s, w, n - 1);
      RunAppend(h, s, w, SendAll(n - 1), Send(true));
      RunAppend(h, s, w, SendAll(n - 1) + [Send(true)], Record);
      SendRecords(h, s, Run(h, s, w, SendAll(n - 1)));
      OneMoreCall(w.phase.m, n - 1);
    }
  }

  /** With the guard open, a pending manifest of any length whose entries pass is deleted to its end. */
  lemma OpenGuardSendsAll(h: Hash, s: Settings, w: World, m: nat)
    requires Shaped(w) && Sane(s) && w.phase.Idle? && MayDelete(s, w)
    requires m < |w.manifests| && w.manifests[m].status.PendingApproval? && w.manifests[m].expiresAt > w.now
    requires AllOk(h, s, w, w.manifests[m], w.remote, w.now)
    ensures var n := |w.manifests[m].entries|;
            Run(h, s, w, Opening(m, w.manifests[m].digest, n) + SendAll(n)).calls == w.calls + FirstCalls(m, n)
  {
    hide Run, AllOk, MayDelete, FirstCalls;
    var n := |w.manifests[m].entries|;
    OpeningRun(h, s, w, m);
    SendAllRun(h, s, Run(h, s, w, Opening(m, w.manifests[m].digest, n)), n);
    RunSplit(h, s, w, Opening(m, w.manifests[m].digest, n), SendAll(n));
  }

  // ---------------------------------------------------------------- a manifest for any world

  /** An archived item whose file is empty and lies at "p". */
  function Archived(h: Hash, s: Settings, now: int): Item {
    Item(1, QUARANTINED, Some("p"), 0, Some(h([])), Some(0), Some("k"), Some(0),
         Some(now - s.quarantineDays * DAY), Some("scaleway-glacier"), Some("b"), Some("o"), Some("c"), Some("e"),
         Some(0), Some(now))
  }

  function Photo(h: Hash, s: Settings, now: int, id: AssetId): Asset {
    Asset(id, 0, 0, false, "PrimarySync", "r", "t", 1, [Archived(h, s, now)], None)
  }

  function Single(h: Hash, s: Settings, now: int, id: AssetId): Manifest {
    Manifest("d", PendingApproval, 0, now + 1, [Entry(id, "r", "t", 0, Evidence(Photo(h, s, now, id)), false)])
  }

  function Stocking(h: Hash, s: Settings, now: int, id: AssetId): seq<Event> {
    [SetAsset(Photo(h, s, now, id))] + [SetFiles(map["p" := []])]
    + [SetRemote(map[id := Remote("r", "t", false)])] + [Create(Single(h, s, now, id))]
  }

  /** Strings longer than every string of a set are not in it. */
  lemma FreshName(names: set<string>) returns (id: string)
    ensures id !in names
  {
    var n := Longest(names);
    id := seq(n + 1, _ => 'x');
  }

  lemma {:induction false} Longest(names: set<string>) returns (n: nat)
    ensures forall x :: x in names ==> |x| <= n
    decreases |names|
  {
    if names == {} {
      n := 0;
    } else {
      var x :| x in names;
      var m := Longest(names - {x});
      n := if |x| > m then |x| else m;
      forall y | y in names ensures |y| <= n {
        assert y == x || y in names - {x};
      }
    }
  }

  lemma AssetIsSet(h: Hash, s: Settings, w: World, id: AssetId)
    requires Shaped(w) && Sane(s) && id !in w.assets
    ensures Step(h, s, w, SetAsset(Photo(h, s, w.now, id))) == w.(assets := w.assets[id := Photo(h, s, w.now, id)])
  {
  }

  lemma ManifestIsCreated(h: Hash, s: Settings, w: World, now: int, id: AssetId)
    requires Shaped(w) && Sane(s)
    ensures Step(h, s, w, Create(Single(h, s, now, id)))
         == w.(manifests := w.manifests + [Single(h, s, now, id)], books := w.books + [Book(0, 0)])
  {
    hide Evidence;
  }

  lemma StockingRun(h: Hash, s: Settings, w: World, id: AssetId)
    requires Shaped(w) && Sane(s) && w.phase.Idle? && id !in w.assets
    ensures Run(h, s, w, Stocking(h, s, w.now, id))
         == w.(assets := w.assets[id := Photo(h, s, w.now, id)], files := map["p" := []],
               remote := map[id := Remote("r", "t", false)],
               manifests := w.manifests + [Single(h, s, w.now, id)], books := w.books + [Book(0, 0)])
  {
    hide Run, Photo, Single, Validated, Begun, Sent, Recorded, Reviewed, Finished, AssetSet, FreshManifest;
    var a := [SetAsset(Photo(h, s, w.now, id))];
    var b := a + [SetFiles(map["p" := []])];
    var c := b + [SetRemote(map[id := Remote("r", "t", false)])];
    RunOne(h, s, w, a[0]);
    AssetIsSet(h, s, w, id);
    RunAppend(h, s, w, a, SetFiles(map["p" := []]));
    RunAppend(h, s, w, b, SetRemote(map[id := Remote("r", "t", false)]));
    RunAppend(h, s, w, c, Create(Single(h, s, w.now, id)));
    ManifestIsCreated(h, s, Run(h, s, w, c), w.now, id);
  }

  lemma PhotoIsEligible(h: Hash, s: Settings, now: int, id: AssetId)
    ensures Eligible(h, map["p" := []], s, Photo(h, s, now, id), now)
  {
    assert ItemEligible(h, map["p" := []], s, Archived(h, s, now), now);
  }

  lemma SingleIsWithinLimits(h: Hash, s: Settings, now: int, id: AssetId)
    requires Sane(s)
    ensures WithinLimits(UsageAt(EntrySizes(Single(h, s, now, id).entries), 0),
                         RunLimits(Share(0, s.maxQuotaPercent), s.maxAssets), 0)
  {
  }

  /** A manifest of one small archived photo passes every check. */
  lemma SinglePasses(h: Hash, s: Settings, w: World, id: AssetId)
    requires Sane(s) && s.reliefEnabled
    requires id in w.assets && w.assets[id] == Photo(h, s, w.now, id) && w.files == map["p" := []]
    ensures AllOk(h, s, w, Single(h, s, w.now, id), map[id := Remote("r", "t", false)], w.now)
  {
    PhotoIsEligible(h, s, w.now, id);
    EligibleFactsClearIff(h, w.files, s, Photo(h, s, w.now, id), true, w.now);
    SingleIsWithinLimits(h, s, w.now, id);
    hide Eligible, Facts, FactsClear, WithinLimits, Evidence;
  }

  /** From any world with an idle executor and the guard open there is a run, without a resume, that
      sends a delete and gets any reply to it. */
  lemma OpenGuardSends(h: Hash, s: Settings, w: World, confirmed: bool) returns (events: seq<Event>)
    requires Shaped(w) && Sane(s) && w.phase.Idle? && MayDelete(s, w)
    ensures Unresumed(events)
    ensures var v := Run(h, s, w, events);
            v.calls == w.calls + [Call(|w.manifests|, 0)] && MayDelete(s, v)
            && v.phase == Replied(|w.manifests|, 0, confirmed)
  {
    hide Run, EntryOk, Evidence, Photo;
    var id := FreshName(w.assets.Keys);
    var m := |w.manifests|;
    StockingRun(h, s, w, id);
    var u := Run(h, s, w, Stocking(h, s, w.now, id));
    SinglePasses(h, s, u, id);
    OpeningRun(h, s, u, m);
    var opening := Opening(m, "d", 1);
    RunSplit(h, s, w, Stocking(h, s, w.now, id), opening);
    var v := Run(h, s, u, opening);
    events := Stocking(h, s, w.now, id) + opening + [Send(confirmed)];
    RunAppend(h, s, w, Stocking(h, s, w.now, id) + opening, Send(confirmed));
  }

  // ---------------------------------------------------------------- what an ambiguous reply stops

  /** An idle executor sends nothing more, short of a resume, exactly when the guard is shut. */
  lemma NothingIsSentIff(h: Hash, s: Settings, w: World)
    requires Shaped(w) && Sane(s) && w.phase.Idle?
    ensures SendsNothing(h, s, w) <==> !MayDelete(s, w)
  {
    hide Run, MayDelete, Unresumed, Still;
    if MayDelete(s, w) {
      var events := OpenGuardSends(h, s, w, true);
      assert Run(h, s, w, events).calls != w.calls;
    } else {
      IdleIsStill(s, w);
      forall events: seq<Event> | Unresumed(events) ensures Run(h, s, w, events).calls == w.calls {
        ShutRun(h, s, w, events);
      }
    }
  }

  lemma IdleIsStill(s: Settings, w: World)
    requires Shaped(w) && w.phase.Idle?
    ensures Still(s, w)
  {
  }

  /** An ambiguous reply: once its review is committed no delete is sent until deletion is resumed. If the
      process dies first, that holds exactly when the guard was shut already at the crash. */
  lemma AmbiguityStopsDeletesIff(h: Hash, s: Settings, w: World)
    requires Inv(w) && Sane(s) && w.phase.Replied? && !w.phase.confirmed
    ensures Shaped(w) && SendsNothing(h, s, Step(h, s, w, Review))
    ensures SendsNothing(h, s, Step(h, s, w, Crash)) <==> !MayDelete(s, w)
  {
    hide SendsNothing, ManifestsOk, CallsOk, PhaseOk;
    NothingIsSentIff(h, s, Step(h, s, w, Review));
    NothingIsSentIff(h, s, Step(h, s, w, Crash));
  }

  /** The window is reached wherever cleanup is enabled: deletion is resumed once, a delete gets an ambiguous
      reply, the process dies, and another delete is sent although nobody resumed anything since. */
  lemma WindowIsReached(h: Hash, s: Settings) returns (before: seq<Event>, after: seq<Event>)
    requires Sane(s) && s.milestoneApproved && s.reliefEnabled
    ensures var w := Run(h, s, EMPTY, before);
            && w.phase.Replied? && !w.phase.confirmed && Unresumed(after)
            && Run(h, s, EMPTY, before + [Crash] + after).calls == w.calls + [Call(|w.manifests|, 0)]
  {
    hide Run, MayDelete;
    RunOne(h, s, EMPTY, Resume);
    var resumed := Step(h, s, EMPTY, Resume);
    assert MayDelete(s, resumed) by { ResumeOpens(h, s, EMPTY); }
    var first := OpenGuardSends(h, s, resumed, false);
    before := [Resume] + first;
    RunSplit(h, s, EMPTY, [Resume], first);
    var w := Run(h, s, EMPTY, before);
    var c := Step(h, s, w, Crash);
    RunAppend(h, s, EMPTY, before, Crash);
    assert MayDelete(s, c) by { CrashKeepsGuard(h, s, w); }
    after := OpenGuardSends(h, s, c, true);
    RunSplit(h, s, EMPTY, before + [Crash], after);
  }

  lemma ResumeOpens(h: Hash, s: Settings, w: World)
    requires Shaped(w) && Sane(s) && s.milestoneApproved && s.reliefEnabled
    ensures MayDelete(s, Step(h, s, w, Resume))
  {
  }

  lemma CrashKeepsGuard(h: Hash, s: Settings, w: World)
    requires Shaped(w) && Sane(s)
    ensures MayDelete(s, Step(h, s, w, Crash)) == MayDelete(s, w)
  {
  }
}
