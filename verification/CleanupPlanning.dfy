/** From the inventory to a pending manifest, and what execution will say to it
    (src/mnema/domain/icloud_cleanup.py). */
module CleanupPlanning {
  import opened Basics
  import opened States
  import opened Gate
  import opened CleanupPlan
  import opened CleanupRun
  import opened CleanupService

  predicate IsRow(assets: map<AssetId, Asset>, a: Asset) {
    && a.id in assets && assets[a.id] == a
    && !a.favorite && a.remotelyDeletedAt.None? && a.library == "PrimarySync"
  }

  /** The rows the inventory query returns: asset rows of the table, oldest first, each once. */
  predicate IsInventory(assets: map<AssetId, Asset>, rows: seq<Asset>) {
    && (forall i :: 0 <= i < |rows| ==> IsRow(assets, rows[i]))
    && (forall i, j :: 0 <= i < j < |rows| ==> rows[i].id != rows[j].id && rows[i].createdAt <= rows[j].createdAt)
  }

  /** The eligible rows, in order. */
  function Candidates(h: Hash, files: Files, s: Settings, rows: seq<Asset>, now: int): (c: seq<Asset>)
    ensures |c| <= |rows|
    ensures forall a :: a in c <==> a in rows && Eligible(h, files, s, a, now)
    ensures forall a :: a in c <==> a in rows && Archived(h, files, s, a, now)
  {
    if rows == [] then []
    else
      var n := |rows| - 1;
      var rest := Candidates(h, files, s, rows[..n], now);
      assert forall a :: a in rows <==> a in rows[..n] || a == rows[n];
      EligibleIsArchived(h, files, s, rows[n], now);
      if Eligible(h, files, s, rows[n], now) then rest + [rows[n]] else rest
  }

  lemma AppendRow(assets: map<AssetId, Asset>, rows: seq<Asset>, kept: seq<Asset>)
    requires rows != [] && IsInventory(assets, rows) && IsInventory(assets, kept)
    requires forall a :: a in kept ==> a in rows[..|rows| - 1]
    ensures IsInventory(assets, kept + [rows[|rows| - 1]])
  {
    hide IsRow;
    var n := |rows| - 1;
    forall i | 0 <= i < |kept| ensures kept[i].id != rows[n].id && kept[i].createdAt <= rows[n].createdAt {
      assert kept[i] in kept && kept[i] in rows[..n];
      var j :| 0 <= j < n && rows[..n][j] == kept[i];
      assert rows[j] == kept[i];
    }
  }

  lemma {:induction false} CandidatesKeepOrder(h: Hash, files: Files, s: Settings, assets: map<AssetId, Asset>, rows: seq<Asset>, now: int)
    requires IsInventory(assets, rows)
    ensures IsInventory(assets, Candidates(h, files, s, rows, now))
  {
    hide Eligible, IsRow;
    if rows != [] {
      var n := |rows| - 1;
      CandidatesKeepOrder(h, files, s, assets, rows[..n], now);
      var rest := Candidates(h, files, s, rows[..n], now);
      AppendRow(assets, rows, rest);
      hide IsInventory;
    }
  }

  function EntryFor(a: Asset): Entry {
    Entry(a.id, a.recordName, a.changeTag, a.originalSize, Evidence(a), false)
  }

  function EntriesFor(selected: seq<Asset>): seq<Entry> {
    seq(|selected|, k requires 0 <= k < |selected| => EntryFor(selected[k]))
  }

  function LatestPending(manifests: seq<Manifest>): (m: Option<nat>)
    ensures m.Some? ==> m.value < |manifests| && manifests[m.value].status.PendingApproval?
    ensures m.None? ==> forall k :: 0 <= k < |manifests| ==> !manifests[k].status.PendingApproval?
  {
    if manifests == [] then None
    else if manifests[|manifests| - 1].status.PendingApproval? then Some(|manifests| - 1)
    else LatestPending(manifests[..|manifests| - 1])
  }

  function WithDigest(manifests: seq<Manifest>, digest: Digest): (m: Option<nat>)
    ensures m.Some? ==> m.value < |manifests| && manifests[m.value].digest == digest
    ensures m.None? ==> forall k :: 0 <= k < |manifests| ==> manifests[k].digest != digest
  {
    if manifests == [] then None
    else if manifests[|manifests| - 1].digest == digest then Some(|manifests| - 1)
    else WithDigest(manifests[..|manifests| - 1], digest)
  }

  /** Each entry asks for one candidate as it is: its name, its tag, its size and the receipts of its components. */
  predicate AsksFor(entries: seq<Entry>, candidates: seq<Asset>) {
    && |entries| <= |candidates|
    && forall k :: 0 <= k < |entries| ==>
         var e, a := entries[k], candidates[k];
         && e.asset == a.id && e.recordName == a.recordName && e.changeTag == a.changeTag
         && e.size == a.originalSize && !e.completed && ReceiptsOf(e.evidence, a.components)
  }

  lemma EntriesAskFor(candidates: seq<Asset>, n: nat)
    requires n <= |candidates|
    ensures AsksFor(EntriesFor(candidates[..n]), candidates)
  {
    forall k | 0 <= k < n ensures ReceiptsOf(Evidence(candidates[k]), candidates[k].components) {
      EvidenceIs(candidates[k]);
    }
  }

  /** With room for an asset nothing is selected only where nothing can be. */
  lemma NothingToPlan(sizes: seq<nat>, need: nat, cap: nat, maxAssets: nat)
    requires maxAssets >= 1 && IsPlan(sizes, 0, need, cap, maxAssets)
    ensures sizes == []
  {
  }

  /** A manifest as the planner makes it from the rows of an inventory. */
  predicate IsPlannedFrom(h: Hash, files: Files, s: Settings, m: Manifest, candidates: seq<Asset>, used: nat)
    requires Sane(s)
  {
    && |m.entries| <= |candidates|
    && m.entries == EntriesFor(candidates[..|m.entries|])
    && IsPlan(Sizes(candidates), |m.entries|, BytesNeeded(used, Share(m.quota, s.targetPercent)),
              Share(m.quota, s.maxQuotaPercent), s.maxAssets)
  }

  datatype Preview = Blocked | Nothing | Pending(m: nat) | Created(m: nat)

  /** The selection as a manifest, if anything was selected. */
  method PlanManifest(c: Service, used: nat, quota: nat, rows: seq<Asset>, digest: Digest)
    returns (m: Option<Manifest>)
    requires Sane(c.s) && IsInventory(c.assets, rows)
    ensures m.Some? ==>
              && FreshManifest(m.value) && m.value.status.PendingApproval? && |m.value.entries| > 0
              && m.value.digest == digest && m.value.quota == quota && m.value.expiresAt == c.now + DAY
              && IsPlannedFrom(c.h, c.files, c.s, m.value, Candidates(c.h, c.files, c.s, rows, c.now), used)
              && AsksFor(m.value.entries, Candidates(c.h, c.files, c.s, rows, c.now))
    ensures m.Some? <==> exists a :: a in rows && Archived(c.h, c.files, c.s, a, c.now)
  {
    hide Candidates, IsPlan, FreshManifest, IsInventory, Archived, Eligible, AsksFor;
    var candidates := Candidates(c.h, c.files, c.s, rows, c.now);
    var need := BytesNeeded(used, Share(quota, c.s.targetPercent));
    var selected, planned := SelectAssets(candidates, need, Share(quota, c.s.maxQuotaPercent), c.s.maxAssets);
    EntriesAskFor(candidates, |selected|);
    if selected == [] {
      NothingToPlan(Sizes(candidates), need, Share(quota, c.s.maxQuotaPercent), c.s.maxAssets);
      return None;
    }
    assert candidates[0] in candidates;
    var manifest := Manifest(digest, PendingApproval, quota, c.now + DAY, EntriesFor(selected));
    CandidatesKeepOrder(c.h, c.files, c.s, c.assets, rows, c.now);
    PlannedIsFresh(c.assets, manifest, candidates);
    m := Some(manifest);
  }

  method ExpireManifests(c: Service)
    requires Inv(c.Now()) && Sane(c.s)
    modifies c`manifests
    ensures Inv(c.Now()) && c.Now() == Step(c.h, c.s, old(c.Now()), ExpireOld)
    ensures c.manifests == Swept(old(c.manifests), c.now)
    ensures |c.manifests| == |old(c.manifests)|
    ensures forall k :: 0 <= k < |c.manifests| ==>
              var m := old(c.manifests)[k];
              c.manifests[k] == if m.status.PendingApproval? && m.expiresAt <= c.now then m.(status := Expired) else m
  {
    hide Inv, Step;
    ghost var w := c.Now();
    InvParts(w);
    StepKeepsInv(c.h, c.s, w, ExpireOld);
    ExpireStepIs(c.h, c.s, w);
    var k := 0;
    while k < |c.manifests|
      invariant 0 <= k <= |c.manifests| == |w.manifests|
      invariant forall j :: 0 <= j < k ==> c.manifests[j] == Lapsed(w.manifests[j], c.now)
      invariant forall j :: k <= j < |w.manifests| ==> c.manifests[j] == w.manifests[j]
    {
      if c.manifests[k].status.PendingApproval? && c.manifests[k].expiresAt <= c.now {
        c.manifests := c.manifests[k := c.manifests[k].(status := Expired)];
      }
      k := k + 1;
    }
    assert c.manifests == Swept(w.manifests, c.now);
  }

  method AddManifest(c: Service, m: Manifest)
    requires Inv(c.Now()) && Sane(c.s) && FreshManifest(m)
    modifies c`manifests, c`books
    ensures Inv(c.Now()) && c.Now() == Step(c.h, c.s, old(c.Now()), Create(m))
    ensures c.manifests == old(c.manifests) + [m]
  {
    hide Inv, Step, FreshManifest;
    ghost var w := c.Now();
    InvParts(w);
    StepKeepsInv(c.h, c.s, w, Create(m));
    CreateStepIs(c.h, c.s, w, m);
    c.manifests := c.manifests + [m];
    c.books := c.books + [Book(0, 0)];
  }

  /** A manifest waits for approval and is not overdue. */
  predicate AwaitsApproval(manifests: seq<Manifest>, now: int) {
    exists k :: 0 <= k < |manifests| && manifests[k].status.PendingApproval? && now < manifests[k].expiresAt
  }

  predicate HasDigest(manifests: seq<Manifest>, digest: Digest) {
    exists k :: 0 <= k < |manifests| && manifests[k].digest == digest
  }

  /** What waits once the overdue are expired. */
  lemma PendingAfterExpiry(before: seq<Manifest>, after: seq<Manifest>, now: int)
    requires |after| == |before|
    requires forall k :: 0 <= k < |after| ==>
               var m := before[k];
               after[k] == if m.status.PendingApproval? && m.expiresAt <= now then m.(status := Expired) else m
    ensures AwaitsApproval(before, now) <==> LatestPending(after).Some?
    ensures forall digest :: HasDigest(after, digest) <==> HasDigest(before, digest)
  {
    if AwaitsApproval(before, now) {
      var k :| 0 <= k < |before| && before[k].status.PendingApproval? && now < before[k].expiresAt;
      assert after[k].status.PendingApproval?;
    }
    if LatestPending(after).Some? {
      assert after[LatestPending(after).value] == before[LatestPending(after).value];
    }
    assert forall k :: 0 <= k < |after| ==> after[k].digest == before[k].digest;
  }

  /** Expires what is overdue; then, at or above the trigger and with nothing pending, selects the
      oldest eligible assets and appends a manifest for them. */
  method CreateManifest(c: Service, used: nat, quota: nat, rows: seq<Asset>, digest: Digest)
    returns (r: Preview, ghost trace: seq<Event>)
    requires Inv(c.Now()) && Sane(c.s) && quota > 0
    requires IsInventory(c.assets, rows)
    modifies c`manifests, c`books
    ensures Inv(c.Now()) && Shaped(old(c.Now())) && c.Now() == Run(c.h, c.s, old(c.Now()), trace)
    ensures r.Blocked? <==> !c.s.reliefEnabled
    ensures r.Blocked? ==> trace == []
    ensures !r.Blocked? && !r.Created? ==> trace == [ExpireOld]
    ensures r.Pending? ==> r.m < |c.manifests| && (c.manifests[r.m].status.PendingApproval? || c.manifests[r.m].digest == digest)
    ensures !r.Blocked? && !r.Nothing? <==>
              && c.s.reliefEnabled && used as real * 100.0 >= c.s.triggerPercent * quota as real
              && (AwaitsApproval(old(c.manifests), c.now) || exists a :: a in rows && Archived(c.h, c.files, c.s, a, c.now))
    ensures r.Created? ==> !AwaitsApproval(old(c.manifests), c.now) && !HasDigest(old(c.manifests), digest)
    ensures r.Pending? ==> AwaitsApproval(old(c.manifests), c.now) || HasDigest(old(c.manifests), digest)
    ensures r.Created? ==>
              && r.m == |c.manifests| - 1 && |c.manifests[r.m].entries| > 0
              && c.manifests[r.m].digest == digest && c.manifests[r.m].quota == quota
              && c.manifests[r.m].status.PendingApproval? && c.manifests[r.m].expiresAt == c.now + DAY
              && IsPlannedFrom(c.h, c.files, c.s, c.manifests[r.m],
                               Candidates(c.h, c.files, c.s, rows, c.now), used)
              && AsksFor(c.manifests[r.m].entries, Candidates(c.h, c.files, c.s, rows, c.now))
  {
    hide Inv, Step, Run, Candidates, IsPlannedFrom, Swept, IsInventory, LatestPending, WithDigest, FreshManifest, AsksFor,
         Archived, AwaitsApproval;
    ghost var start := c.Now();
    InvParts(start);
    RunNothing(c.h, c.s, start);
    trace := [];
    if !c.s.reliefEnabled {
      return Blocked, trace;
    }
    RunAppend(c.h, c.s, start, [], ExpireOld);
    ExpireManifests(c);
    PendingAfterExpiry(start.manifests, c.manifests, c.now);
    trace := [] + [ExpireOld];
    if used as real * 100.0 < c.s.triggerPercent * quota as real {
      return Nothing, trace;
    }
    var pending := LatestPending(c.manifests);
    if pending.Some? {
      return Pending(pending.value), trace;
    }
    var planned := PlanManifest(c, used, quota, rows, digest);
    if planned.None? {
      return Nothing, trace;
    }
    var existing := WithDigest(c.manifests, digest);
    if existing.Some? {
      return Pending(existing.value), trace;
    }
    var manifest := planned.value;
    RunAppend(c.h, c.s, start, trace, Create(manifest));
    AddManifest(c, manifest);
    trace := trace + [Create(manifest)];
    r := Created(|c.manifests| - 1);
  }

  lemma ExpireStepIs(h: Hash, s: Settings, w: World)
    requires Shaped(w) && Sane(s)
    ensures Step(h, s, w, ExpireOld) == w.(manifests := Swept(w.manifests, w.now))
  {
  }

  lemma CreateStepIs(h: Hash, s: Settings, w: World, m: Manifest)
    requires Shaped(w) && Sane(s) && FreshManifest(m)
    ensures Step(h, s, w, Create(m)) == w.(manifests := w.manifests + [m], books := w.books + [Book(0, 0)])
  {
  }

  lemma PlannedIsFresh(assets: map<AssetId, Asset>, m: Manifest, candidates: seq<Asset>)
    requires IsInventory(assets, candidates) && |m.entries| <= |candidates|
    requires m.status.PendingApproval? && m.entries == EntriesFor(candidates[..|m.entries|])
    ensures FreshManifest(m)
  {
    forall i, j | 0 <= i < j < |m.entries| ensures m.entries[i].asset != m.entries[j].asset {
      assert candidates[i].id != candidates[j].id;
    }
  }

  // ---------------------------------------------------------------- plan and execution agree

  /** The remote library still shows the asset as it was planned. */
  predicate Shown(remote: map<AssetId, Remote>, a: Asset) {
    a.id in remote && !remote[a.id].favorite
    && remote[a.id].recordName == a.recordName && remote[a.id].changeTag == a.changeTag
  }

  /** Eligibility only ripens with time. */
  lemma EligibleLater(h: Hash, files: Files, s: Settings, a: Asset, now: int, later: int)
    requires Eligible(h, files, s, a, now) && now <= later
    ensures Eligible(h, files, s, a, later)
  {
    forall k | 0 <= k < |a.components| ensures ItemEligible(h, files, s, a.components[k], later) {
      assert ItemEligible(h, files, s, a.components[k], now);
    }
  }

  lemma EntryAgrees(h: Hash, s: Settings, w: World, m: Manifest, candidates: seq<Asset>, at: int, k: nat)
    requires Sane(s) && s.reliefEnabled
    requires |m.entries| <= |candidates| && m.entries == EntriesFor(candidates[..|m.entries|])
    requires k < |m.entries|
    requires candidates[k].id in w.assets && w.assets[candidates[k].id] == candidates[k]
    requires Shown(w.remote, candidates[k]) && candidates[k].components != []
    requires Eligible(h, w.files, s, candidates[k], at)
    ensures EntryOk(h, s, w, m, w.remote, at, k) <==>
            WithinLimits(UsageAt(EntrySizes(m.entries), k), RunLimits(Share(m.quota, s.maxQuotaPercent), s.maxAssets),
                         EntrySizes(m.entries)[k])
  {
    EligibleFactsClearIff(h, w.files, s, candidates[k], true, at);
    assert m.entries[k] == EntryFor(candidates[k]);
    hide Eligible, Facts, FactsClear, WithinLimits, Evidence, UsageAt;
  }

  lemma PlannedSizes(m: Manifest, candidates: seq<Asset>)
    requires |m.entries| <= |candidates| && m.entries == EntriesFor(candidates[..|m.entries|])
    ensures EntrySizes(m.entries) == Sizes(candidates)[..|m.entries|]
  {
  }

  /** Planner and gate agree. With settings and evidence as they were when the manifest was planned,
      every asset with a component, the library unchanged and the gates open, validation accepts the
      whole manifest exactly when its total is within the byte cap; otherwise it is a single asset that
      alone exceeds the cap. */
  lemma PlannedManifestValidatesIff(h: Hash, s: Settings, w: World, m: Manifest, candidates: seq<Asset>,
                                    used: nat, now: int, at: int)
    requires Sane(s) && s.reliefEnabled && now <= at
    requires IsPlannedFrom(h, w.files, s, m, candidates, used)
    requires forall k :: 0 <= k < |candidates| ==>
               && candidates[k].id in w.assets && w.assets[candidates[k].id] == candidates[k]
               && Shown(w.remote, candidates[k]) && candidates[k].components != []
               && Eligible(h, w.files, s, candidates[k], now)
    ensures (forall k :: 0 <= k < |m.entries| ==> EntryOk(h, s, w, m, w.remote, at, k))
       <==> Total(Sizes(candidates), |m.entries|) <= Share(m.quota, s.maxQuotaPercent)
    ensures Total(Sizes(candidates), |m.entries|) > Share(m.quota, s.maxQuotaPercent)
       ==> |m.entries| == 1 && candidates[0].originalSize > Share(m.quota, s.maxQuotaPercent)
  {
    hide EntryOk, Eligible, Total, WithinLimits, UsageAt, IsPlan, Shown;
    var cap := Share(m.quota, s.maxQuotaPercent);
    var n := |m.entries|;
    PlannedSizes(m, candidates);
    PlanPassesLimitsIff(Sizes(candidates), n, BytesNeeded(used, Share(m.quota, s.targetPercent)), cap, s.maxAssets);
    forall k | 0 <= k < n
      ensures EntryOk(h, s, w, m, w.remote, at, k) <==>
              WithinLimits(UsageAt(EntrySizes(m.entries), k), RunLimits(cap, s.maxAssets), EntrySizes(m.entries)[k])
    {
      EligibleLater(h, w.files, s, candidates[k], now, at);
      EntryAgrees(h, s, w, m, candidates, at, k);
    }
    hide RunLimits, Share, EntriesFor;
  }
}
