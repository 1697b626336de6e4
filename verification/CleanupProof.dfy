/** What stands behind every delete call of a cleanup: the approval it was sent under, and what had been seen of
    its asset since (src/mnema/domain/icloud_cleanup.py). Told from the events of the run, field by field. */
module CleanupProof {
  import opened Basics
  import opened States
  import opened Gate
  import opened CleanupPlan
  import opened CleanupRun

  // ----- Manifests do not change under an execution -----

  /** Everything of an entry but whether it was completed. */
  predicate SameEntry(e: Entry, e': Entry) {
    e' == e.(completed := e'.completed)
  }

  predicate SameManifest(m: Manifest, m': Manifest) {
    && m'.digest == m.digest && m'.quota == m.quota && m'.expiresAt == m.expiresAt
    && |m'.entries| == |m.entries|
    && forall k :: 0 <= k < |m.entries| ==> SameEntry(m.entries[k], m'.entries[k])
  }

  ghost predicate ManifestsStay(w: World, v: World) {
    |w.manifests| <= |v.manifests| && forall m :: 0 <= m < |w.manifests| ==> SameManifest(w.manifests[m], v.manifests[m])
  }

  lemma StaysOnce(w: World)
    ensures ManifestsStay(w, w)
  {
  }

  lemma StatusStays(w: World, m: nat, status: Status)
    requires m < |w.manifests|
    ensures ManifestsStay(w, WithStatus(w, m, status))
  {
  }

  lemma SameManifestsStay(w: World, v: World)
    requires v.manifests == w.manifests
    ensures ManifestsStay(w, v)
  {
  }

  lemma SweptStay(w: World)
    ensures ManifestsStay(w, w.(manifests := Swept(w.manifests, w.now)))
  {
  }

  lemma RecordedStay(w: World)
    requires Shaped(w)
    ensures ManifestsStay(w, Recorded(w))
  {
    hide MarkDeleted;
  }

  lemma CreatedStay(w: World, v: World, m: Manifest)
    requires v.manifests == w.manifests + [m]
    ensures ManifestsStay(w, v)
  {
  }

  lemma ExecutorStays(h: Hash, s: Settings, w: World)
    requires Shaped(w) && Sane(s)
    ensures ManifestsStay(w, Validated(h, s, w)) && ManifestsStay(w, Sent(w, true)) && ManifestsStay(w, Sent(w, false))
  {
    hide EntryOk, ManifestsStay;
    SameManifestsStay(w, Validated(h, s, w));
    SameManifestsStay(w, Sent(w, true));
    SameManifestsStay(w, Sent(w, false));
  }

  lemma StatusesStay(w: World)
    requires Shaped(w)
    ensures ManifestsStay(w, Begun(w)) && ManifestsStay(w, Finished(w)) && ManifestsStay(w, Reviewed(w))
  {
    hide ManifestsStay, WithStatus;
    StaysOnce(w);
    if !w.phase.Idle? {
      var m := w.phase.m;
      StatusStays(w, m, Executing);
      StatusStays(w, m, Completed);
      StatusStays(w, m, Partial);
      StatusStays(w, m, Status.ManualReview);
      SameManifestsAs(w, WithStatus(w, m, Executing), Begun(w));
      SameManifestsAs(w, WithStatus(w, m, Completed), Finished(w));
      SameManifestsAs(w, WithStatus(w, m, Partial), Reviewed(w));
      SameManifestsAs(w, WithStatus(w, m, Status.ManualReview), Reviewed(w));
    }
  }

  lemma SameManifestsAs(w: World, u: World, v: World)
    requires ManifestsStay(w, u)
    ensures v.manifests == u.manifests ==> ManifestsStay(w, v)
  {
  }

  lemma ManifestsStayOverStep(h: Hash, s: Settings, w: World, e: Event)
    requires Shaped(w) && Sane(s)
    ensures ManifestsStay(w, Step(h, s, w, e))
  {
    hide ManifestsStay, Validated, Begun, Sent, Recorded, Reviewed, Finished, Swept, FreshManifest, CanApprove;
    StaysOnce(w);
    ExecutorStays(h, s, w);
    StatusesStay(w);
    match e
    case Create(m) =>
      if FreshManifest(m) {
        CreatedStay(w, Step(h, s, w, e), m);
      }
    case ExpireOld => SweptStay(w);
    case Record => RecordedStay(w);
    case Validate =>
    case Begin =>
    case Send(_) =>
    case Review =>
    case Finish =>
    case _ => SameManifestsStay(w, Step(h, s, w, e));
  }

  lemma {:induction false} ManifestsStayOverRun(h: Hash, s: Settings, events: seq<Event>, k: nat)
    requires Sane(s) && k <= |events|
    ensures ManifestsStay(Run(h, s, EMPTY, events[..k]), Run(h, s, EMPTY, events))
  {
    hide Step, SameEntry;
    if k == |events| {
      assert events[..k] == events;
      StaysOnce(Run(h, s, EMPTY, events));
    } else {
      var n := |events| - 1;
      assert events[..n][..k] == events[..k];
      ManifestsStayOverRun(h, s, events[..n], k);
      ManifestsStayOverStep(h, s, Run(h, s, EMPTY, events[..n]), events[n]);
      StaysTwice(Run(h, s, EMPTY, events[..k]), Run(h, s, EMPTY, events[..n]), Run(h, s, EMPTY, events));
    }
  }

  lemma StaysTwice(u: World, v: World, w: World)
    requires ManifestsStay(u, v) && ManifestsStay(v, w)
    ensures ManifestsStay(u, w)
  {
    forall m | 0 <= m < |u.manifests| ensures SameManifest(u.manifests[m], w.manifests[m]) {
      assert SameManifest(u.manifests[m], v.manifests[m]) && SameManifest(v.manifests[m], w.manifests[m]);
    }
  }

  // ----- The approval behind an execution -----

  /** Event j approved manifest m: the digest was the one shown, the manifest pending and unexpired, the milestone
      reached, the disks healthy, deletion enabled, the lock off and the usage at the trigger. */
  ghost predicate ApprovedAt(h: Hash, s: Settings, events: seq<Event>, j: nat, m: nat)
    requires Sane(s)
  {
    && j < |events| && events[j].Approve? && events[j].m == m
    && var a := Run(h, s, EMPTY, events[..j]);
    && s.milestoneApproved && m < |a.manifests|
    && a.manifests[m].digest == events[j].digest && a.manifests[m].status.PendingApproval?
    && a.now < a.manifests[m].expiresAt
    && events[j].healthy && a.deletionEnabled && !a.safetyLock && events[j].aboveTrigger
  }

  /** Event k, under the approval at j, found entry q in order, by the listing and the clock of the approval. */
  ghost predicate ValidatedAt(h: Hash, s: Settings, events: seq<Event>, k: nat, j: nat, m: nat, q: nat)
    requires Sane(s)
  {
    && j < k < |events| && events[k] == Validate
    && var a, x := Run(h, s, EMPTY, events[..j]), Run(h, s, EMPTY, events[..k]);
    && x.phase == Validating(m, a.now, a.remote, q) && m < |x.manifests| && q < |x.manifests[m].entries|
    && EntryOk(h, s, x, x.manifests[m], a.remote, a.now, q)
  }

  ghost predicate SomeValidated(h: Hash, s: Settings, events: seq<Event>, j: nat, m: nat, q: nat)
    requires Sane(s)
  {
    exists k: nat :: ValidatedAt(h, s, events, k, j, m, q)
  }

  /** Under the approval at j the first n entries were validated. */
  ghost predicate Earned(h: Hash, s: Settings, events: seq<Event>, j: nat, m: nat, n: nat)
    requires Sane(s)
  {
    ApprovedAt(h, s, events, j, m) && forall q: nat :: q < n ==> SomeValidated(h, s, events, j, m, q)
  }

  lemma EarnedOneMore(h: Hash, s: Settings, events: seq<Event>, j: nat, m: nat, n: nat)
    requires Sane(s) && events != [] && Earned(h, s, events[..|events| - 1], j, m, n)
    ensures Earned(h, s, events, j, m, n)
  {
    hide Run, EntryOk;
    var last := |events| - 1;
    assert events[..last][..j] == events[..j] && events[..last][j] == events[j];
    forall q: nat | q < n ensures SomeValidated(h, s, events, j, m, q) {
      assert SomeValidated(h, s, events[..last], j, m, q);
      var k: nat :| ValidatedAt(h, s, events[..last], k, j, m, q);
      assert events[..last][..k] == events[..k] && events[..last][k] == events[k];
      assert ValidatedAt(h, s, events, k, j, m, q);
    }
  }

  /** How a step moves the executor. */
  lemma ValidatingStep(h: Hash, s: Settings, w: World, e: Event)
    requires Shaped(w) && Sane(s) && Step(h, s, w, e).phase.Validating?
    ensures var p, p' := w.phase, Step(h, s, w, e).phase;
            || p' == p
            || (e == Validate && p.Validating? && p' == Validating(p.m, p.at, p.current, p.k + 1)
                && p.k < |w.manifests[p.m].entries| && EntryOk(h, s, w, w.manifests[p.m], p.current, p.at, p.k))
            || (e.Approve? && p' == Validating(e.m, w.now, w.remote, 0) && e.m < |w.manifests| && s.milestoneApproved
                && w.manifests[e.m].digest == e.digest && w.manifests[e.m].status.PendingApproval?
                && w.now < w.manifests[e.m].expiresAt && e.healthy && w.deletionEnabled && !w.safetyLock && e.aboveTrigger)
  {
    hide EntryOk, FreshManifest, Swept, MarkDeleted;
  }

  lemma DeletingStep(h: Hash, s: Settings, w: World, e: Event)
    requires Shaped(w) && Sane(s)
    requires Step(h, s, w, e).phase.Deleting? || Step(h, s, w, e).phase.Replied?
    ensures var p, p' := w.phase, Step(h, s, w, e).phase;
            && !p.Idle? && p'.m == p.m && p.m < |Step(h, s, w, e).manifests|
            && |Step(h, s, w, e).manifests[p.m].entries| == |w.manifests[p.m].entries|
            && (p.Validating? ==> p.k == |w.manifests[p.m].entries|)
  {
    ManifestsStayOverStep(h, s, w, e);
    DeletingPhase(h, s, w, e);
    hide Step;
    assert SameManifest(w.manifests[w.phase.m], Step(h, s, w, e).manifests[w.phase.m]);
  }

  lemma DeletingPhase(h: Hash, s: Settings, w: World, e: Event)
    requires Shaped(w) && Sane(s)
    requires Step(h, s, w, e).phase.Deleting? || Step(h, s, w, e).phase.Replied?
    ensures !w.phase.Idle? && Step(h, s, w, e).phase.m == w.phase.m
    ensures w.phase.Validating? ==> w.phase.k == |w.manifests[w.phase.m].entries|
  {
    hide EntryOk, FreshManifest, MarkDeleted, Swept, CanApprove;
    if !e.Begin? {
      hide Begun;
    }
    if !e.Record? {
      hide Recorded;
    }
    if !e.Send? {
      hide Sent;
    }
  }

  /** Whatever the executor is doing, it is doing under an approval of this run, and as far as it got the entries
      were validated under it. */
  ghost predicate Underway(h: Hash, s: Settings, events: seq<Event>)
    requires Sane(s)
  {
    var w := Run(h, s, EMPTY, events);
    match w.phase
    case Idle => true
    case Validating(m, at, current, k) =>
      exists j: nat ::
        && Earned(h, s, events, j, m, k)
        && Run(h, s, EMPTY, events[..j]).now == at && Run(h, s, EMPTY, events[..j]).remote == current
    case Deleting(m, _) => exists j: nat :: Earned(h, s, events, j, m, |w.manifests[m].entries|)
    case Replied(m, _, _) => exists j: nat :: Earned(h, s, events, j, m, |w.manifests[m].entries|)
  }

  lemma ValidatingStaysUnderway(h: Hash, s: Settings, events: seq<Event>)
    requires Sane(s) && events != [] && Underway(h, s, events[..|events| - 1])
    requires Run(h, s, EMPTY, events).phase.Validating?
    ensures Underway(h, s, events)
  {
    hide Step, EntryOk, ApprovedAt, SomeValidated;
    var n := |events| - 1;
    var w, e := Run(h, s, EMPTY, events[..n]), events[n];
    var p' := Run(h, s, EMPTY, events).phase;
    ValidatingStep(h, s, w, e);
    if e.Approve? && p' != w.phase {
      ApprovedHere(h, s, events);
      assert Earned(h, s, events, n, e.m, 0);
    } else {
      var j := OneMoreValidated(h, s, events);
    }
  }

  lemma OneMoreValidated(h: Hash, s: Settings, events: seq<Event>) returns (j: nat)
    requires Sane(s) && events != [] && Underway(h, s, events[..|events| - 1])
    requires Run(h, s, EMPTY, events[..|events| - 1]).phase.Validating?
    requires var w, e := Run(h, s, EMPTY, events[..|events| - 1]), events[|events| - 1];
             var p, p' := w.phase, Step(h, s, w, e).phase;
             || p' == p
             || (e == Validate && p' == Validating(p.m, p.at, p.current, p.k + 1)
                 && p.k < |w.manifests[p.m].entries| && EntryOk(h, s, w, w.manifests[p.m], p.current, p.at, p.k))
    ensures var p' := Run(h, s, EMPTY, events).phase;
            && p'.Validating? && Earned(h, s, events, j, p'.m, p'.k)
            && Run(h, s, EMPTY, events[..j]).now == p'.at && Run(h, s, EMPTY, events[..j]).remote == p'.current
  {
    hide Step, EntryOk;
    var n := |events| - 1;
    var p := Run(h, s, EMPTY, events[..n]).phase;
    var p' := Run(h, s, EMPTY, events).phase;
    j :| && Earned(h, s, events[..n], j, p.m, p.k)
         && Run(h, s, EMPTY, events[..n][..j]).now == p.at && Run(h, s, EMPTY, events[..n][..j]).remote == p.current;
    EarnedOneMore(h, s, events, j, p.m, p.k);
    BeforeTheEnd(h, s, events, j, p.m, p.k);
    assert events[..n][..j] == events[..j];
    if p' != p {
      assert ValidatedAt(h, s, events, n, j, p.m, p.k);
      assert SomeValidated(h, s, events, j, p.m, p.k);
    }
    hide SomeValidated, ValidatedAt;
  }

  lemma ApprovedHere(h: Hash, s: Settings, events: seq<Event>)
    requires Sane(s) && events != [] && events[|events| - 1].Approve?
    requires var w, e := Run(h, s, EMPTY, events[..|events| - 1]), events[|events| - 1];
             Step(h, s, w, e).phase.Validating? && Step(h, s, w, e).phase != w.phase
    ensures ApprovedAt(h, s, events, |events| - 1, events[|events| - 1].m)
  {
    hide Step;
    ValidatingStep(h, s, Run(h, s, EMPTY, events[..|events| - 1]), events[|events| - 1]);
  }

  lemma BeforeTheEnd(h: Hash, s: Settings, events: seq<Event>, j: nat, m: nat, n: nat)
    requires Sane(s) && events != [] && Earned(h, s, events[..|events| - 1], j, m, n)
    ensures j < |events| - 1
  {
  }

  lemma DeletingStaysUnderway(h: Hash, s: Settings, events: seq<Event>)
    requires Sane(s) && events != [] && Underway(h, s, events[..|events| - 1])
    requires Run(h, s, EMPTY, events).phase.Deleting? || Run(h, s, EMPTY, events).phase.Replied?
    ensures Underway(h, s, events)
  {
    hide Step, EntryOk, ApprovedAt, SomeValidated;
    var n := |events| - 1;
    var w := Run(h, s, EMPTY, events[..n]);
    DeletingStep(h, s, w, events[n]);
    var m := w.phase.m;
    var j: nat :| Earned(h, s, events[..n], j, m, |w.manifests[m].entries|);
    EarnedOneMore(h, s, events, j, m, |w.manifests[m].entries|);
  }

  lemma {:induction false} ExecutionsAreApproved(h: Hash, s: Settings, events: seq<Event>)
    requires Sane(s)
    ensures Underway(h, s, events)
  {
    if events != [] {
      ExecutionsAreApproved(h, s, events[..|events| - 1]);
      if Run(h, s, EMPTY, events).phase.Validating? {
        ValidatingStaysUnderway(h, s, events);
      } else if !Run(h, s, EMPTY, events).phase.Idle? {
        DeletingStaysUnderway(h, s, events);
      }
    }
  }

  // ----- What a delete call rests on -----

  /** What an entry in order means for the listing, the asset and its components. */
  lemma EntryOkMeans(h: Hash, s: Settings, w: World, m: Manifest, current: map<AssetId, Remote>, at: int, k: nat)
    requires k < |m.entries| && Sane(s) && EntryOk(h, s, w, m, current, at, k)
    ensures var e := m.entries[k];
            && e.asset in current && !current[e.asset].favorite
            && current[e.asset].recordName == e.recordName && current[e.asset].changeTag == e.changeTag
            && e.asset in w.assets
            && var t := w.assets[e.asset];
            && !t.favorite && t.remotelyDeletedAt.None? && |t.components| == t.expectedComponents && t.components != []
            && s.reliefEnabled
            && |e.evidence| == |t.components|
            && forall n :: 0 <= n < |t.components| ==>
                 var i := t.components[n];
                 && (i.state == QUARANTINED || i.state == ARCHIVED)
                 && i.remoteProvider == Some("scaleway-glacier")
                 && i.remoteBucket.Some? && i.remoteObject.Some? && i.remoteSize.Some? && i.encryptionMode.Some?
                 && i.kopiaSnapshotId.Some? && i.kopiaVerifiedAt.Some? && i.remoteVerifiedAt.Some?
                 && i.quarantineExpiresAt.Some? && i.quarantineExpiresAt.value <= at
                 && i.coldArchivedAt.Some? && i.coldArchivedAt.value + s.quarantineDays * DAY <= at
                 && i.nasPath.Some? && i.nasPath.value in w.files
                 && |w.files[i.nasPath.value]| == i.originalSize && i.sha == Some(h(w.files[i.nasPath.value]))
                 && e.evidence[n] == Receipt(i.id, i.sha, i.kopiaSnapshotId, i.remoteObject, i.remoteChecksum)
  {
    var t := w.assets[m.entries[k].asset];
    EligibleFactsClearIff(h, w.files, s, t, true, at);
    EvidenceIs(t);
    hide Facts, FactsClear, WithinLimits, LatestCold, UsageAt, Evidence;
    assert forall n :: 0 <= n < |t.components| ==> ItemEligible(h, w.files, s, t.components[n], at);
  }

  /** Every delete call of every run goes out under an approval, event j, of the manifest as it stands: digest
      shown, unexpired, milestone, health, switches and trigger. And at event k, after that approval and by its
      listing and clock, the asset of the call was seen to be there under the recorded name and tag, no
      favourite, with exactly its expected components; each of them quarantined or archived, with a complete
      Glacier receipt, snapshot and verification times, both quarantines over, an active file of the recorded
      size and digest, and the receipts the manifest was approved with. */
  lemma SentMeansProven(h: Hash, s: Settings, events: seq<Event>, confirmed: bool) returns (j: nat, k: nat)
    requires Sane(s)
    requires var w := Run(h, s, EMPTY, events); Step(h, s, w, Send(confirmed)).calls != w.calls
    ensures j < k < |events|
    ensures var w, a, x := Run(h, s, EMPTY, events), Run(h, s, EMPTY, events[..j]), Run(h, s, EMPTY, events[..k]);
            && w.phase.Deleting? && w.phase.m < |w.manifests| && w.phase.k < |w.manifests[w.phase.m].entries|
            && var m, e := w.phase.m, w.manifests[w.phase.m].entries[w.phase.k];
            && Step(h, s, w, Send(confirmed)).calls == w.calls + [Call(m, w.phase.k)]
            // the approval
            && events[j].Approve? && events[j].m == m && m < |a.manifests|
            && a.manifests[m].status.PendingApproval? && events[j].digest == w.manifests[m].digest
            && a.now < w.manifests[m].expiresAt && s.milestoneApproved && s.reliefEnabled
            && events[j].healthy && a.deletionEnabled && !a.safetyLock && events[j].aboveTrigger
            // the library at the approval
            && e.asset in a.remote && !a.remote[e.asset].favorite
            && a.remote[e.asset].recordName == e.recordName && a.remote[e.asset].changeTag == e.changeTag
            // the asset when it was validated
            && e.asset in x.assets
            && var t := x.assets[e.asset];
            && !t.favorite && t.remotelyDeletedAt.None? && |t.components| == t.expectedComponents && t.components != []
            && |e.evidence| == |t.components|
            && forall n :: 0 <= n < |t.components| ==>
                 var i := t.components[n];
                 && (i.state == QUARANTINED || i.state == ARCHIVED)
                 && i.remoteProvider == Some("scaleway-glacier")
                 && i.remoteBucket.Some? && i.remoteObject.Some? && i.remoteSize.Some? && i.encryptionMode.Some?
                 && i.kopiaSnapshotId.Some? && i.kopiaVerifiedAt.Some? && i.remoteVerifiedAt.Some?
                 && i.quarantineExpiresAt.Some? && i.quarantineExpiresAt.value <= a.now
                 && i.coldArchivedAt.Some? && i.coldArchivedAt.value + s.quarantineDays * DAY <= a.now
                 && i.nasPath.Some? && i.nasPath.value in x.files
                 && |x.files[i.nasPath.value]| == i.originalSize && i.sha == Some(h(x.files[i.nasPath.value]))
                 && e.evidence[n] == Receipt(i.id, i.sha, i.kopiaSnapshotId, i.remoteObject, i.remoteChecksum)
  {
    hide Run, EntryOk, SomeValidated, ManifestsStay;
    var w := Run(h, s, EMPTY, events);
    SendSendsTheNext(h, s, w, confirmed);
    ExecutionsAreApproved(h, s, events);
    var m, q := w.phase.m, w.phase.k;
    j :| Earned(h, s, events, j, m, |w.manifests[m].entries|);
    assert SomeValidated(h, s, events, j, m, q);
    k := ValidationOf(h, s, events, j, m, q);
    var a, x := Run(h, s, EMPTY, events[..j]), Run(h, s, EMPTY, events[..k]);
    EntryOkMeans(h, s, x, x.manifests[m], a.remote, a.now, q);
    ManifestsStayOverRun(h, s, events, j);
    ManifestsStayOverRun(h, s, events, k);
    SameFields(a, w, m);
    SameEntryFields(x, w, m, q);
  }

  lemma ValidationOf(h: Hash, s: Settings, events: seq<Event>, j: nat, m: nat, q: nat) returns (k: nat)
    requires Sane(s) && SomeValidated(h, s, events, j, m, q)
    ensures ValidatedAt(h, s, events, k, j, m, q)
  {
    k :| ValidatedAt(h, s, events, k, j, m, q);
  }

  lemma SameFields(a: World, w: World, m: nat)
    requires ManifestsStay(a, w) && m < |a.manifests|
    ensures m < |w.manifests| && a.manifests[m].digest == w.manifests[m].digest
    ensures a.manifests[m].expiresAt == w.manifests[m].expiresAt
  {
    assert SameManifest(a.manifests[m], w.manifests[m]);
  }

  lemma SameEntryFields(x: World, w: World, m: nat, q: nat)
    requires ManifestsStay(x, w) && m < |x.manifests| && q < |x.manifests[m].entries|
    ensures m < |w.manifests| && q < |w.manifests[m].entries|
    ensures var e, e' := x.manifests[m].entries[q], w.manifests[m].entries[q];
            e'.asset == e.asset && e'.recordName == e.recordName && e'.changeTag == e.changeTag && e'.evidence == e.evidence
  {
    assert SameManifest(x.manifests[m], w.manifests[m]);
    assert SameEntry(x.manifests[m].entries[q], w.manifests[m].entries[q]);
  }

  lemma SendSendsTheNext(h: Hash, s: Settings, w: World, confirmed: bool)
    requires Shaped(w) && Sane(s) && Step(h, s, w, Send(confirmed)).calls != w.calls
    ensures w.phase.Deleting? && w.phase.k < |w.manifests[w.phase.m].entries|
    ensures Step(h, s, w, Send(confirmed)).calls == w.calls + [Call(w.phase.m, w.phase.k)]
  {
  }

  /** And no other step sends anything. */
  lemma OnlySendSends(h: Hash, s: Settings, w: World, e: Event)
    requires Shaped(w) && Sane(s) && !e.Send?
    ensures Step(h, s, w, e).calls == w.calls
  {
    OnlySendCalls(h, s, w, e);
  }
}
