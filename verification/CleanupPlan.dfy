/** The iCloud cleanup plan and what the deletion gate will say about it
    (src/mnema/domain/icloud_cleanup.py, src/mnema/policies/deletion.py). */
module CleanupPlan {
  import opened Basics
  import opened States
  import opened Gate

  type AssetId = string

  /** An archive item behind an asset: the columns the cleanup looks at. */
  datatype Item = Item(
    id: int,
    state: ArchiveState,
    nasPath: Option<Path>,
    originalSize: nat,
    sha: Option<Digest>,
    kopiaVerifiedAt: Option<int>,
    kopiaSnapshotId: Option<string>,
    remoteVerifiedAt: Option<int>,
    coldArchivedAt: Option<int>,
    remoteProvider: Option<string>,
    remoteBucket: Option<string>,
    remoteObject: Option<string>,
    remoteChecksum: Option<string>,
    encryptionMode: Option<string>,
    remoteSize: Option<nat>,
    quarantineExpiresAt: Option<int>)

  /** An asset with its components in order of archive item. */
  datatype Asset = Asset(
    id: AssetId,
    createdAt: int,
    originalSize: nat,
    favorite: bool,
    library: string,
    recordName: string,
    changeTag: string,
    expectedComponents: nat,
    components: seq<Item>,
    remotelyDeletedAt: Option<int>)

  type Files = map<Path, Bytes>

  const DAY := 86400

  datatype Settings = Settings(
    reliefEnabled: bool,
    milestoneApproved: bool,
    triggerPercent: real,
    targetPercent: real,
    quarantineDays: nat,
    maxAssets: nat,
    maxQuotaPercent: real)

  /** The ranges the settings are validated against. */
  predicate Sane(s: Settings) {
    0.0 <= s.targetPercent < s.triggerPercent <= 100.0 && 0.0 <= s.maxQuotaPercent && 1 <= s.maxAssets
  }

  // ---------------------------------------------------------------- eligibility and gate facts

  predicate HoldsItem(h: Hash, files: Files, i: Item) {
    && i.nasPath.Some? && i.sha.Some? && i.nasPath.value in files
    && |files[i.nasPath.value]| == i.originalSize
    && h(files[i.nasPath.value]) == i.sha.value
  }

  predicate ItemEligible(h: Hash, files: Files, s: Settings, i: Item, now: int) {
    && (i.state == QUARANTINED || i.state == ARCHIVED)
    && i.nasPath.Some? && i.sha.Some? && i.kopiaVerifiedAt.Some? && i.kopiaSnapshotId.Some?
    && i.remoteVerifiedAt.Some? && i.coldArchivedAt.Some? && i.remoteProvider == Some("scaleway-glacier")
    && i.remoteBucket.Some? && i.remoteObject.Some? && i.encryptionMode.Some? && i.remoteSize.Some?
    && i.quarantineExpiresAt.Some? && i.quarantineExpiresAt.value <= now
    && i.coldArchivedAt.value + s.quarantineDays * DAY <= now
    && HoldsItem(h, files, i)
  }

  predicate Eligible(h: Hash, files: Files, s: Settings, a: Asset, now: int) {
    && !a.favorite && a.remotelyDeletedAt.None?
    && |a.components| == a.expectedComponents
    && forall k :: 0 <= k < |a.components| ==> ItemEligible(h, files, s, a.components[k], now)
  }

  /** No favourite and not deleted yet, with exactly the expected components; each quarantined or archived, held
      by all three stores with a complete receipt of the Glacier copy, and both quarantines over. */
  predicate Archived(h: Hash, files: Files, s: Settings, a: Asset, now: int) {
    && !a.favorite && a.remotelyDeletedAt.None? && |a.components| == a.expectedComponents
    && forall i :: i in a.components ==>
         && (i.state == QUARANTINED || i.state == ARCHIVED)
         && i.remoteProvider == Some("scaleway-glacier")
         && i.remoteBucket.Some? && i.remoteObject.Some? && i.remoteSize.Some? && i.encryptionMode.Some?
         && i.kopiaSnapshotId.Some? && i.kopiaVerifiedAt.Some? && i.remoteVerifiedAt.Some?
         && i.quarantineExpiresAt.Some? && i.quarantineExpiresAt.value <= now
         && i.coldArchivedAt.Some? && i.coldArchivedAt.value + s.quarantineDays * DAY <= now
         && i.nasPath.Some? && i.nasPath.value in files
         && |files[i.nasPath.value]| == i.originalSize && i.sha == Some(h(files[i.nasPath.value]))
  }

  lemma EligibleIsArchived(h: Hash, files: Files, s: Settings, a: Asset, now: int)
    ensures Eligible(h, files, s, a, now) <==> Archived(h, files, s, a, now)
  {
    if Archived(h, files, s, a, now) {
      forall k | 0 <= k < |a.components| ensures ItemEligible(h, files, s, a.components[k], now) {
        assert a.components[k] in a.components;
      }
    }
  }

  predicate All(items: seq<Item>, p: Item -> bool) {
    forall k :: 0 <= k < |items| ==> p(items[k])
  }

  /** The latest time an item went cold, or the default when none did. */
  function LatestCold(items: seq<Item>, default: int): (m: int)
    ensures forall k :: 0 <= k < |items| && items[k].coldArchivedAt.Some? ==> items[k].coldArchivedAt.value <= m
    ensures m == default || exists k :: 0 <= k < |items| && items[k].coldArchivedAt == Some(m)
    ensures (exists k :: 0 <= k < |items| && items[k].coldArchivedAt.Some?)
            ==> exists k :: 0 <= k < |items| && items[k].coldArchivedAt == Some(m)
    ensures (forall k :: 0 <= k < |items| ==> items[k].coldArchivedAt.None?) ==> m == default
    decreases |items|
  {
    if items == [] then default
    else
      var n := |items| - 1;
      if items[n].coldArchivedAt.None? then LatestCold(items[..n], default)
      else
        var m := LatestCold(items[..n], items[n].coldArchivedAt.value);
        if m < items[n].coldArchivedAt.value then items[n].coldArchivedAt.value else m
  }

  function Facts(h: Hash, files: Files, s: Settings, a: Asset, gatesReady: bool, now: int): DeletionFacts {
    var items := a.components;
    DeletionFacts(
      localExists := All(items, (i: Item) => i.nasPath.Some? && i.nasPath.value in files),
      localSizeMatches := All(items, (i: Item) =>
        i.nasPath.Some? && i.nasPath.value in files && |files[i.nasPath.value]| == i.originalSize),
      localSha256Exists := All(items, (i: Item) => i.sha.Some?),
      localSha256Matches := All(items, (i: Item) =>
        i.nasPath.Some? && i.nasPath.value in files && i.sha.Some? && h(files[i.nasPath.value]) == i.sha.value),
      kopiaVerified := All(items, (i: Item) => i.kopiaVerifiedAt.Some?),
      remoteVerified := All(items, (i: Item) => i.remoteVerifiedAt.Some?),
      quarantineExpiresAt := Some(LatestCold(items, now + 3650 * DAY) + s.quarantineDays * DAY),
      sourceExists := true,
      sourceUnchanged := true,
      sourceIdentityMatches := true,
      activeDiskHealthy := gatesReady,
      backupDiskHealthy := gatesReady,
      storageDevicesDiffer := gatesReady,
      sqliteIntegrityHealthy := gatesReady,
      remoteAvailable := gatesReady,
      globalDeletionEnabled := gatesReady,
      sourceDeletionEnabled := s.reliefEnabled,
      safetyLock := !gatesReady,
      manualApprovalRequired := true,
      manualApprovalGranted := true)
  }

  /** What clear facts say of any asset: each component's file is there with its size and digest, snapshot and
      cold copy were verified, the last of them went cold a quarantine ago, and the switches are on. */
  lemma FactsClearIff(h: Hash, files: Files, s: Settings, a: Asset, gatesReady: bool, now: int)
    ensures FactsClear(Facts(h, files, s, a, gatesReady, now), now) <==>
            && (forall i :: i in a.components ==>
                  && i.nasPath.Some? && i.nasPath.value in files && |files[i.nasPath.value]| == i.originalSize
                  && i.sha == Some(h(files[i.nasPath.value])) && i.kopiaVerifiedAt.Some? && i.remoteVerifiedAt.Some?)
            && LatestCold(a.components, now + 3650 * DAY) + s.quarantineDays * DAY <= now
            && gatesReady && s.reliefEnabled
  {
    hide LatestCold;
    var items := a.components;
    assert forall k :: 0 <= k < |items| ==> items[k] in items;
  }

  /** For an eligible asset the recorded facts are clear exactly when the gates are open, the relief
      switch is on and the asset has a component at all: an asset that expects none is eligible, yet
      its quarantine never elapses. */
  lemma EligibleFactsClearIff(h: Hash, files: Files, s: Settings, a: Asset, gatesReady: bool, now: int)
    requires Eligible(h, files, s, a, now)
    ensures FactsClear(Facts(h, files, s, a, gatesReady, now), now)
       <==> gatesReady && s.reliefEnabled && a.components != []
  {
    var items := a.components;
    assert forall k :: 0 <= k < |items| ==> ItemEligible(h, files, s, items[k], now);
    QuarantineElapsedIff(h, files, s, a, now);
    hide LatestCold;
  }

  lemma QuarantineElapsedIff(h: Hash, files: Files, s: Settings, a: Asset, now: int)
    requires Eligible(h, files, s, a, now)
    ensures LatestCold(a.components, now + 3650 * DAY) + s.quarantineDays * DAY <= now <==> a.components != []
  {
    var items := a.components;
    var latest := LatestCold(items, now + 3650 * DAY);
    if items != [] {
      assert ItemEligible(h, files, s, items[0], now);
      var k :| 0 <= k < |items| && items[k].coldArchivedAt == Some(latest);
      assert ItemEligible(h, files, s, items[k], now);
    }
    hide HoldsItem, LatestCold;
  }

  // ---------------------------------------------------------------- the plan

  /** The bytes of the first k. */
  function Total(sizes: seq<nat>, k: nat): nat
    requires k <= |sizes|
  {
    if k == 0 then 0 else Total(sizes, k - 1) + sizes[k - 1]
  }

  /** After k assets the plan is still short, and one more stays within the byte cap. */
  predicate GoesOn(sizes: seq<nat>, k: nat, need: nat, cap: nat)
    requires k < |sizes|
  {
    Total(sizes, k) < need && Total(sizes, k + 1) <= cap
  }

  /** The oldest-first selection, stated by what it must satisfy: it takes the first n candidates and
      stops for a reason, never earlier and never later. */
  predicate IsPlan(sizes: seq<nat>, n: nat, need: nat, cap: nat, maxAssets: nat)
    requires n <= |sizes|
  {
    && n <= maxAssets
    && (forall k: nat :: 0 < k < n ==> GoesOn(sizes, k, need, cap))
    && (n == |sizes| || n == maxAssets || (n > 0 && !GoesOn(sizes, n, need, cap)))
  }

  /** A plan takes no asset it can do without, none but the first beyond the byte cap, and stops short of the need
      only when nothing is left, the count is full, or the next would go beyond the cap. */
  lemma PlanTakesNoMore(sizes: seq<nat>, n: nat, need: nat, cap: nat, maxAssets: nat)
    requires n <= |sizes| && IsPlan(sizes, n, need, cap, maxAssets)
    ensures n > 1 ==> Total(sizes, n - 1) < need && Total(sizes, n) <= cap
    ensures n <= maxAssets
    ensures 0 < n < maxAssets && n < |sizes| && Total(sizes, n) < need ==> Total(sizes, n + 1) > cap
    ensures n == 0 ==> sizes == [] || maxAssets == 0
  {
    hide Total;
    assert n > 1 ==> GoesOn(sizes, n - 1, need, cap);
  }

  /** The conditions leave no choice. */
  lemma PlanIsUnique(sizes: seq<nat>, m: nat, n: nat, need: nat, cap: nat, maxAssets: nat)
    requires m <= |sizes| && n <= |sizes|
    requires IsPlan(sizes, m, need, cap, maxAssets) && IsPlan(sizes, n, need, cap, maxAssets)
    ensures m == n
  {
  }

  function Sizes(assets: seq<Asset>): seq<nat> {
    seq(|assets|, k requires 0 <= k < |assets| => assets[k].originalSize)
  }

  lemma {:induction false} TotalOfPrefix(sizes: seq<nat>, n: nat, k: nat)
    requires k <= n <= |sizes|
    ensures Total(sizes[..n], k) == Total(sizes, k)
  {
    if k > 0 {
      TotalOfPrefix(sizes, n, k - 1);
    }
  }

  method SelectAssets(candidates: seq<Asset>, need: nat, cap: nat, maxAssets: nat)
    returns (selected: seq<Asset>, planned: nat)
    ensures |selected| <= |candidates| && selected == candidates[..|selected|]
    ensures planned == Total(Sizes(candidates), |selected|)
    ensures IsPlan(Sizes(candidates), |selected|, need, cap, maxAssets)
  {
    selected, planned := [], 0;
    ghost var sizes := Sizes(candidates);
    hide Total;
    TotalOfNone(sizes);
    for i := 0 to |candidates|
      invariant |selected| == i && selected == candidates[..i]
      invariant planned == Total(sizes, i)
      invariant i <= maxAssets
      invariant forall k: nat :: 0 < k < i ==> GoesOn(sizes, k, need, cap)
      invariant i > 0 ==> planned < need
    {
      var asset := candidates[i];
      TotalOfOneMore(sizes, i);
      if |selected| >= maxAssets {
        break;
      }
      if selected != [] && planned + asset.originalSize > cap {
        break;
      }
      selected := selected + [asset];
      planned := planned + asset.originalSize;
      if planned >= need {
        break;
      }
    }
  }

  lemma TotalOfNone(sizes: seq<nat>)
    ensures Total(sizes, 0) == 0
  {
  }

  lemma TotalOfOneMore(sizes: seq<nat>, k: nat)
    requires k < |sizes|
    ensures Total(sizes, k + 1) == Total(sizes, k) + sizes[k]
  {
  }

  // ---------------------------------------------------------------- plan against gate

  function RunLimits(cap: nat, maxAssets: nat): DeletionLimits {
    DeletionLimits(maxAssets, cap, 100.0)
  }

  /** The usage the executor has accumulated when it comes to entry k. */
  function UsageAt(sizes: seq<nat>, k: nat): DeletionRunUsage
    requires k <= |sizes|
  {
    DeletionRunUsage(k, Total(sizes, k), |sizes|)
  }

  /** Every entry in turn stays within the run limits. */
  predicate PassesLimits(sizes: seq<nat>, cap: nat, maxAssets: nat) {
    forall k :: 0 <= k < |sizes| ==> WithinLimits(UsageAt(sizes, k), RunLimits(cap, maxAssets), sizes[k])
  }

  /** Up to the number of entries only the byte cap can bind. */
  lemma OnlyBytesBind(sizes: seq<nat>, k: nat, cap: nat, maxAssets: nat)
    requires k < |sizes| <= maxAssets
    ensures WithinLimits(UsageAt(sizes, k), RunLimits(cap, maxAssets), sizes[k]) <==> Total(sizes, k + 1) <= cap
  {
    assert (k + 1) as real * 100.0 <= 100.0 * |sizes| as real;
  }

  lemma {:induction false} TotalGrows(sizes: seq<nat>, j: nat, k: nat)
    requires j <= k <= |sizes|
    ensures Total(sizes, j) <= Total(sizes, k)
  {
    if j < k {
      TotalGrows(sizes, j, k - 1);
    }
  }

  /** A plan passes the accumulating limits of the gate exactly when its total is within the byte cap;
      the only plan that does not is a single asset that alone exceeds it. */
  lemma PlanPassesLimitsIff(sizes: seq<nat>, n: nat, need: nat, cap: nat, maxAssets: nat)
    requires n <= |sizes| && IsPlan(sizes, n, need, cap, maxAssets)
    ensures PassesLimits(sizes[..n], cap, maxAssets) <==> Total(sizes, n) <= cap
    ensures Total(sizes, n) > cap ==> n == 1 && sizes[0] > cap
  {
    hide WithinLimits, Total, RunLimits, UsageAt, IsPlan;
    var plan := sizes[..n];
    PlanTotals(sizes, n, need, cap, maxAssets);
    TotalOfNone(sizes);
    PlanTakesNoMore(sizes, n, need, cap, maxAssets);
    if Total(sizes, n) <= cap {
      forall k | 0 <= k < n ensures WithinLimits(UsageAt(plan, k), RunLimits(cap, maxAssets), plan[k]) {
        OnlyBytesBind(plan, k, cap, maxAssets);
        TotalOfPrefix(sizes, n, k + 1);
      }
      assert PassesLimits(plan, cap, maxAssets);
    } else {
      OnlyBytesBind(plan, n - 1, cap, maxAssets);
      TotalOfPrefix(sizes, n, n);
      assert !WithinLimits(UsageAt(plan, n - 1), RunLimits(cap, maxAssets), plan[n - 1]);
    }
  }

  /** No beginning of a plan is larger than the plan, and only a plan of one asset can go beyond the cap. */
  lemma PlanTotals(sizes: seq<nat>, n: nat, need: nat, cap: nat, maxAssets: nat)
    requires n <= |sizes| && IsPlan(sizes, n, need, cap, maxAssets)
    ensures forall k: nat :: k <= n ==> Total(sizes, k) <= Total(sizes, n)
    ensures Total(sizes, n) > cap ==> n == 1 && sizes[0] > cap
  {
    TotalOfNone(sizes);
    if n > 0 {
      TotalOfOneMore(sizes, 0);
    }
    PlanTakesNoMore(sizes, n, need, cap, maxAssets);
    hide Total, IsPlan;
    forall k: nat | k <= n ensures Total(sizes, k) <= Total(sizes, n) {
      TotalGrows(sizes, k, n);
    }
  }

  // ---------------------------------------------------------------- bytes

  /** int() of a non-negative percentage of the quota. */
  function Share(quota: nat, percent: real): (n: nat)
    requires percent >= 0.0
    ensures n as real <= quota as real * percent / 100.0 < n as real + 1.0
  {
    ShareIsPositive(quota, percent);
    (quota as real * percent / 100.0).Floor
  }

  lemma ShareIsPositive(quota: nat, percent: real)
    requires percent >= 0.0
    ensures quota as real * percent / 100.0 >= 0.0
  {
  }

  function BytesNeeded(used: nat, target: nat): (n: nat)
    ensures used <= target ==> n == 0
    ensures used > target ==> used - n == target
  {
    if used > target then used - target else 0
  }

  /** At the trigger something must be freed, and a plan that meets the need brings usage to the target. */
  lemma TriggerMeansNeed(used: nat, quota: nat, s: Settings, planned: nat)
    requires quota > 0 && Sane(s)
    requires used as real * 100.0 >= s.triggerPercent * quota as real
    ensures var target := Share(quota, s.targetPercent);
            && BytesNeeded(used, target) > 0
            && (planned >= BytesNeeded(used, target) <==> used - planned <= target)
  {
    var target := Share(quota, s.targetPercent);
    PercentGrows(used as real, quota as real, s.targetPercent, s.triggerPercent);
    assert target as real < used as real;
  }

  lemma PercentGrows(used: real, quota: real, low: real, high: real)
    requires quota > 0.0 && low < high && used * 100.0 >= high * quota
    ensures quota * low / 100.0 < used
  {
    Positive(quota, high - low);
  }

  lemma Positive(a: real, b: real)
    requires a > 0.0 && b > 0.0
    ensures a * b > 0.0
  {
  }
}
