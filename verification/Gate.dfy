/** The deletion gate and its run limits (src/mnema/policies/deletion.py). */
module Gate {
  import opened Basics

  datatype DeletionFacts = DeletionFacts(
    localExists: bool,
    localSizeMatches: bool,
    localSha256Exists: bool,
    localSha256Matches: bool,
    kopiaVerified: bool,
    remoteVerified: bool,
    quarantineExpiresAt: Option<int>,
    sourceExists: bool,
    sourceUnchanged: bool,
    sourceIdentityMatches: bool,
    activeDiskHealthy: bool,
    backupDiskHealthy: bool,
    storageDevicesDiffer: bool,
    sqliteIntegrityHealthy: bool,
    remoteAvailable: bool,
    globalDeletionEnabled: bool,
    sourceDeletionEnabled: bool,
    safetyLock: bool,
    manualApprovalRequired: bool,
    manualApprovalGranted: bool)

  datatype DeletionRunUsage = DeletionRunUsage(filesDeleted: nat, bytesDeleted: nat, eligibleFiles: int)

  datatype DeletionLimits = DeletionLimits(maxFiles: nat, maxBytes: nat, maxPercentage: real)

  datatype GateDecision = GateDecision(allowed: bool, blockers: seq<string>)

  /** Every recorded copy, health reading and switch the gate wants, in one conjunction. */
  predicate FactsClear(f: DeletionFacts, now: int) {
    && f.localExists && f.localSizeMatches && f.localSha256Exists && f.localSha256Matches
    && f.kopiaVerified && f.remoteVerified
    && f.quarantineExpiresAt.Some? && f.quarantineExpiresAt.value <= now
    && f.sourceExists && f.sourceUnchanged && f.sourceIdentityMatches
    && f.activeDiskHealthy && f.backupDiskHealthy && f.storageDevicesDiffer
    && f.sqliteIntegrityHealthy && f.remoteAvailable
    && f.globalDeletionEnabled && f.sourceDeletionEnabled && !f.safetyLock
    && (!f.manualApprovalRequired || f.manualApprovalGranted)
  }

  /** One more file of this size stays within all three run limits. */
  predicate WithinLimits(usage: DeletionRunUsage, limits: DeletionLimits, itemSize: nat) {
    && usage.filesDeleted + 1 <= limits.maxFiles
    && usage.bytesDeleted + itemSize <= limits.maxBytes
    && usage.eligibleFiles > 0
    && (usage.filesDeleted + 1) as real * 100.0 <= limits.maxPercentage * usage.eligibleFiles as real
  }

  predicate GateOpen(f: DeletionFacts, usage: DeletionRunUsage, limits: DeletionLimits, itemSize: nat, now: int) {
    FactsClear(f, now) && WithinLimits(usage, limits, itemSize)
  }

  function Checks(f: DeletionFacts): seq<(string, bool)> {
    [ ("local file missing", f.localExists),
      ("local size mismatch", f.localSizeMatches),
      ("local SHA-256 missing", f.localSha256Exists),
      ("local SHA-256 mismatch", f.localSha256Matches),
      ("local Kopia backup not verified", f.kopiaVerified),
      ("remote copy not verified", f.remoteVerified),
      ("quarantine not configured", f.quarantineExpiresAt.Some?),
      ("source item missing", f.sourceExists),
      ("source changed", f.sourceUnchanged),
      ("source identity mismatch", f.sourceIdentityMatches),
      ("active disk unhealthy", f.activeDiskHealthy),
      ("backup disk unhealthy", f.backupDiskHealthy),
      ("active and backup storage share a device", f.storageDevicesDiffer),
      ("SQLite integrity failed", f.sqliteIntegrityHealthy),
      ("remote storage unavailable", f.remoteAvailable),
      ("global deletion disabled", f.globalDeletionEnabled),
      ("source deletion disabled", f.sourceDeletionEnabled),
      ("safety lock active", !f.safetyLock),
      ("manual approval missing", !f.manualApprovalRequired || f.manualApprovalGranted) ]
  }

  predicate ChecksPass(f: DeletionFacts) {
    forall k :: 0 <= k < |Checks(f)| ==> Checks(f)[k].1
  }

  lemma ChecksPassMeaning(f: DeletionFacts, now: int)
    ensures FactsClear(f, now) <==>
            ChecksPass(f) && !(f.quarantineExpiresAt.Some? && now < f.quarantineExpiresAt.value)
  {
    var c := Checks(f);
    if ChecksPass(f) {
      assert c[0].1 && c[1].1 && c[2].1 && c[3].1 && c[4].1 && c[5].1 && c[6].1;
      assert c[7].1 && c[8].1 && c[9].1 && c[10].1 && c[11].1 && c[12].1 && c[13].1;
      assert c[14].1 && c[15].1 && c[16].1 && c[17].1 && c[18].1;
    }
  }

  /** What each message of the gate says about the facts. */
  predicate LocalBlocks(f: DeletionFacts, b: string) {
    || (b == "local file missing" && !f.localExists)
    || (b == "local size mismatch" && !f.localSizeMatches)
  }

  predicate DigestBlocks(f: DeletionFacts, b: string) {
    || (b == "local SHA-256 missing" && !f.localSha256Exists)
    || (b == "local SHA-256 mismatch" && !f.localSha256Matches)
  }

  predicate CopyBlocks(f: DeletionFacts, b: string) {
    || (b == "local Kopia backup not verified" && !f.kopiaVerified)
    || (b == "remote copy not verified" && !f.remoteVerified)
    || (b == "quarantine not configured" && f.quarantineExpiresAt.None?)
  }

  predicate SourceBlocks(f: DeletionFacts, b: string) {
    || (b == "source item missing" && !f.sourceExists)
    || (b == "source changed" && !f.sourceUnchanged)
    || (b == "source identity mismatch" && !f.sourceIdentityMatches)
  }

  predicate HealthBlocks(f: DeletionFacts, b: string) {
    || (b == "active disk unhealthy" && !f.activeDiskHealthy)
    || (b == "backup disk unhealthy" && !f.backupDiskHealthy)
    || (b == "active and backup storage share a device" && !f.storageDevicesDiffer)
  }

  predicate BackendBlocks(f: DeletionFacts, b: string) {
    || (b == "SQLite integrity failed" && !f.sqliteIntegrityHealthy)
    || (b == "remote storage unavailable" && !f.remoteAvailable)
  }

  predicate SwitchBlocks(f: DeletionFacts, b: string) {
    || (b == "global deletion disabled" && !f.globalDeletionEnabled)
    || (b == "source deletion disabled" && !f.sourceDeletionEnabled)
    || (b == "safety lock active" && f.safetyLock)
    || (b == "manual approval missing" && f.manualApprovalRequired && !f.manualApprovalGranted)
  }

  predicate FactBlocks(f: DeletionFacts, b: string) {
    || LocalBlocks(f, b) || DigestBlocks(f, b) || CopyBlocks(f, b) || SourceBlocks(f, b)
    || HealthBlocks(f, b) || BackendBlocks(f, b) || SwitchBlocks(f, b)
  }

  predicate StillQuarantined(f: DeletionFacts, now: int, b: string) {
    b == "quarantine has not elapsed" && f.quarantineExpiresAt.Some? && now < f.quarantineExpiresAt.value
  }

  predicate LimitBlocks(usage: DeletionRunUsage, limits: DeletionLimits, itemSize: nat, b: string) {
    || (b == "per-run file deletion limit exceeded" && usage.filesDeleted >= limits.maxFiles)
    || (b == "per-run byte deletion limit exceeded" && usage.bytesDeleted + itemSize > limits.maxBytes)
    || (b == "eligible file count is invalid" && usage.eligibleFiles <= 0)
    || (b == "per-run percentage deletion limit exceeded" && usage.eligibleFiles > 0
        && (usage.filesDeleted + 1) as real * 100.0 > limits.maxPercentage * usage.eligibleFiles as real)
  }

  predicate Failing(checks: seq<(string, bool)>, b: string) {
    exists j :: 0 <= j < |checks| && !checks[j].1 && checks[j].0 == b
  }

  /** Each check is named for what it looks at. */
  lemma ChecksAreNamed(f: DeletionFacts, b: string)
    ensures FactBlocks(f, b) <==> Failing(Checks(f), b)
  {
    hide LocalBlocks, DigestBlocks, CopyBlocks, SourceBlocks, HealthBlocks, BackendBlocks, SwitchBlocks, Checks;
    LocalBlocksNamed(f, b);
    DigestBlocksNamed(f, b);
    CopyBlocksNamed(f, b);
    SourceBlocksNamed(f, b);
    HealthBlocksNamed(f, b);
    BackendBlocksNamed(f, b);
    SwitchBlocksNamed(f, b);
    assert |Checks(f)| == 19 by { NumberOfChecks(f); }
  }

  lemma AllChecksAreNamed(f: DeletionFacts)
    ensures forall b {:trigger Failing(Checks(f), b)} :: FactBlocks(f, b) <==> Failing(Checks(f), b)
  {
    hide FactBlocks, Failing, Checks;
    forall b {:trigger Failing(Checks(f), b)} ensures FactBlocks(f, b) <==> Failing(Checks(f), b) {
      ChecksAreNamed(f, b);
    }
  }

  lemma NumberOfChecks(f: DeletionFacts)
    ensures |Checks(f)| == 19
  {
  }

  lemma LocalBlocksNamed(f: DeletionFacts, b: string)
    ensures |Checks(f)| == 19
    ensures LocalBlocks(f, b) <==> exists j :: 0 <= j < 2 && !Checks(f)[j].1 && Checks(f)[j].0 == b
  {
    var c := Checks(f);
    assert c[0] == ("local file missing", f.localExists);
    assert c[1] == ("local size mismatch", f.localSizeMatches);
  }

  lemma DigestBlocksNamed(f: DeletionFacts, b: string)
    ensures |Checks(f)| == 19
    ensures DigestBlocks(f, b) <==> exists j :: 2 <= j < 4 && !Checks(f)[j].1 && Checks(f)[j].0 == b
  {
    var c := Checks(f);
    assert c[2] == ("local SHA-256 missing", f.localSha256Exists);
    assert c[3] == ("local SHA-256 mismatch", f.localSha256Matches);
  }

  lemma CopyBlocksNamed(f: DeletionFacts, b: string)
    ensures |Checks(f)| == 19
    ensures CopyBlocks(f, b) <==> exists j :: 4 <= j < 7 && !Checks(f)[j].1 && Checks(f)[j].0 == b
  {
    var c := Checks(f);
    assert c[4] == ("local Kopia backup not verified", f.kopiaVerified);
    assert c[5] == ("remote copy not verified", f.remoteVerified);
    assert c[6] == ("quarantine not configured", f.quarantineExpiresAt.Some?);
  }

  lemma SourceBlocksNamed(f: DeletionFacts, b: string)
    ensures |Checks(f)| == 19
    ensures SourceBlocks(f, b) <==> exists j :: 7 <= j < 10 && !Checks(f)[j].1 && Checks(f)[j].0 == b
  {
    var c := Checks(f);
    assert c[7] == ("source item missing", f.sourceExists);
    assert c[8] == ("source changed", f.sourceUnchanged);
    assert c[9] == ("source identity mismatch", f.sourceIdentityMatches);
  }

  lemma HealthBlocksNamed(f: DeletionFacts, b: string)
    ensures |Checks(f)| == 19
    ensures HealthBlocks(f, b) <==> exists j :: 10 <= j < 13 && !Checks(f)[j].1 && Checks(f)[j].0 == b
  {
    var c := Checks(f);
    assert c[10] == ("active disk unhealthy", f.activeDiskHealthy);
    assert c[11] == ("backup disk unhealthy", f.backupDiskHealthy);
    assert c[12] == ("active and backup storage share a device", f.storageDevicesDiffer);
  }

  lemma BackendBlocksNamed(f: DeletionFacts, b: string)
    ensures |Checks(f)| == 19
    ensures BackendBlocks(f, b) <==> exists j :: 13 <= j < 15 && !Checks(f)[j].1 && Checks(f)[j].0 == b
  {
    var c := Checks(f);
    assert c[13] == ("SQLite integrity failed", f.sqliteIntegrityHealthy);
    assert c[14] == ("remote storage unavailable", f.remoteAvailable);
  }

  lemma SwitchBlocksNamed(f: DeletionFacts, b: string)
    ensures |Checks(f)| == 19
    ensures SwitchBlocks(f, b) <==> exists j :: 15 <= j < 19 && !Checks(f)[j].1 && Checks(f)[j].0 == b
  {
    var c := Checks(f);
    assert c[15] == ("global deletion disabled", f.globalDeletionEnabled);
    assert c[16] == ("source deletion disabled", f.sourceDeletionEnabled);
    assert c[17] == ("safety lock active", !f.safetyLock);
    assert c[18] == ("manual approval missing", !(f.manualApprovalRequired && !f.manualApprovalGranted));
  }

  lemma FailingGrows(checks: seq<(string, bool)>, k: nat)
    requires k < |checks|
    ensures forall b {:trigger Failing(checks[..k + 1], b)} ::
              Failing(checks[..k + 1], b) <==> Failing(checks[..k], b) || (!checks[k].1 && checks[k].0 == b)
  {
    var fewer, more := checks[..k], checks[..k + 1];
    assert more == fewer + [checks[k]];
    forall b ensures Failing(more, b) <==> Failing(fewer, b) || (!checks[k].1 && checks[k].0 == b) {
      if Failing(fewer, b) {
        var j :| 0 <= j < |fewer| && !fewer[j].1 && fewer[j].0 == b;
        assert more[j] == fewer[j];
      }
      if !checks[k].1 && checks[k].0 == b {
        assert more[k] == checks[k];
      }
    }
  }

  /** The messages of the checks that did not pass, in order. */
  method FailedChecks(checks: seq<(string, bool)>) returns (blockers: seq<string>)
    ensures blockers == [] <==> forall j :: 0 <= j < |checks| ==> checks[j].1
    ensures forall b :: b in blockers <==> Failing(checks, b)
  {
    blockers := [];
    for k := 0 to |checks|
      invariant blockers == [] <==> forall j :: 0 <= j < k ==> checks[j].1
      invariant forall b :: b in blockers <==> Failing(checks[..k], b)
    {
      FailingGrows(checks, k);
      if !checks[k].1 {
        blockers := blockers + [checks[k].0];
      }
    }
    assert checks[..|checks|] == checks;
  }

  method LimitBlockers(usage: DeletionRunUsage, limits: DeletionLimits, itemSize: nat)
      returns (blockers: seq<string>)
    ensures blockers == [] <==> WithinLimits(usage, limits, itemSize)
    ensures forall b :: b in blockers <==> LimitBlocks(usage, limits, itemSize, b)
  {
    blockers := [];
    if usage.filesDeleted + 1 > limits.maxFiles {
      blockers := blockers + ["per-run file deletion limit exceeded"];
    }
    if usage.bytesDeleted + itemSize > limits.maxBytes {
      blockers := blockers + ["per-run byte deletion limit exceeded"];
    }
    if usage.eligibleFiles <= 0 {
      blockers := blockers + ["eligible file count is invalid"];
    } else if (usage.filesDeleted + 1) as real * 100.0 > limits.maxPercentage * usage.eligibleFiles as real {
      blockers := blockers + ["per-run percentage deletion limit exceeded"];
    }
  }

  /** Collects a blocker for each thing that is wrong; the decision allows deletion exactly
      when every fact is clear and the run limits leave room. The blockers are exactly the messages of what
      is wrong. */
  method EvaluateDeletionGate(f: DeletionFacts, usage: DeletionRunUsage, limits: DeletionLimits,
                              itemSize: nat, now: int) returns (d: GateDecision)
    ensures d.allowed <==> GateOpen(f, usage, limits, itemSize, now)
    ensures d.allowed <==> d.blockers == []
    ensures forall b :: b in d.blockers <==> FactBlocks(f, b) || StillQuarantined(f, now, b) || LimitBlocks(usage, limits, itemSize, b)
  {
    hide FactBlocks;
    var blockers := FailedChecks(Checks(f));
    assert blockers == [] <==> ChecksPass(f);
    ChecksPassMeaning(f, now);
    if f.quarantineExpiresAt.Some? && now < f.quarantineExpiresAt.value {
      blockers := blockers + ["quarantine has not elapsed"];
    }
    var limited := LimitBlockers(usage, limits, itemSize);
    blockers := blockers + limited;
    d := GateDecision(blockers == [], blockers);
    AllChecksAreNamed(f);
  }
}
