/** Executing an approved cleanup manifest, with crashes between any two commits
    (src/mnema/domain/icloud_cleanup.py, src/mnema/cli.py). One approval command runs at a time. */
module CleanupRun {
  import opened Basics
  import opened Gate
  import opened CleanupPlan

  datatype Status = PendingApproval | Executing | Completed | Partial | ManualReview | Expired

  datatype Receipt = Receipt(
    item: int,
    sha: Option<Digest>,
    kopiaSnapshotId: Option<string>,
    remoteObject: Option<string>,
    remoteChecksum: Option<string>)

  datatype Entry = Entry(
    asset: AssetId,
    recordName: string,
    changeTag: string,
    size: nat,
    evidence: seq<Receipt>,
    completed: bool)

  datatype Manifest = Manifest(digest: Digest, status: Status, quota: nat, expiresAt: int, entries: seq<Entry>)

  /** How many entries were sent to iCloud and how many of those were recorded as done. */
  datatype Book = Book(sent: nat, done: nat)

  datatype Remote = Remote(recordName: string, changeTag: string, favorite: bool)

  datatype Call = Call(manifest: nat, entry: nat)

  /** Where the one executor stands; it dies with the process. */
  datatype Phase =
    | Idle
    | Validating(m: nat, at: int, current: map<AssetId, Remote>, k: nat)
    | Deleting(m: nat, k: nat)
    | Replied(m: nat, k: nat, confirmed: bool)

  datatype World = World(
    manifests: seq<Manifest>,
    books: seq<Book>,
    assets: map<AssetId, Asset>,
    files: Files,
    remote: map<AssetId, Remote>,
    deletionEnabled: bool,
    safetyLock: bool,
    now: int,
    phase: Phase,
    calls: seq<Call>,
    checked: set<Call>)

  datatype Event =
    | Create(manifest: Manifest)
    | ExpireOld
    | Approve(m: nat, digest: Digest, healthy: bool, aboveTrigger: bool)
    | Validate
    | Begin
    | Send(confirmed: bool)
    | Record
    | Review
    | Finish
    | Crash
    | Resume
    | Pause
    | SetAsset(asset: Asset)
    | SetFiles(files: Files)
    | SetRemote(remote: map<AssetId, Remote>)
    | Tick(seconds: nat)

  function Evidence(a: Asset): seq<Receipt> {
    seq(|a.components|, k requires 0 <= k < |a.components| =>
      var i := a.components[k]; Receipt(i.id, i.sha, i.kopiaSnapshotId, i.remoteObject, i.remoteChecksum))
  }

  function EntrySizes(entries: seq<Entry>): seq<nat> {
    seq(|entries|, k requires 0 <= k < |entries| => entries[k].size)
  }

  /** Everything execute asks of one entry before any delete. */
  predicate EntryOk(h: Hash, s: Settings, w: World, m: Manifest, current: map<AssetId, Remote>, at: int, k: nat)
    requires k < |m.entries| && Sane(s)
  {
    var e := m.entries[k];
    && e.asset in current && !current[e.asset].favorite
    && current[e.asset].recordName == e.recordName && current[e.asset].changeTag == e.changeTag
    && e.asset in w.assets
    && var a := w.assets[e.asset];
    && Eligible(h, w.files, s, a, at)
    && Evidence(a) == e.evidence
    && GateOpen(Facts(h, w.files, s, a, true, at), UsageAt(EntrySizes(m.entries), k),
                RunLimits(Share(m.quota, s.maxQuotaPercent), s.maxAssets), e.size, at)
  }

  lemma EvidenceIs(t: Asset)
    ensures |Evidence(t)| == |t.components|
    ensures forall n :: 0 <= n < |t.components| ==>
              var i := t.components[n];
              Evidence(t)[n] == Receipt(i.id, i.sha, i.kopiaSnapshotId, i.remoteObject, i.remoteChecksum)
  {
  }

  /** The manifest's evidence is the receipts of these components, in order. */
  predicate ReceiptsOf(evidence: seq<Receipt>, components: seq<Item>) {
    && |evidence| == |components|
    && forall n :: 0 <= n < |components| ==>
         var i := components[n];
         evidence[n] == Receipt(i.id, i.sha, i.kopiaSnapshotId, i.remoteObject, i.remoteChecksum)
  }

  /** What an entry in order means: the library still shows the asset as planned, the asset is archived with the
      receipts of the plan, relief is enabled, and the run limits leave room after the entries before it. */
  lemma EntryOkIff(h: Hash, s: Settings, w: World, m: Manifest, current: map<AssetId, Remote>, at: int, k: nat)
    requires k < |m.entries| && Sane(s)
    ensures EntryOk(h, s, w, m, current, at, k) <==>
            var e := m.entries[k];
            && e.asset in current && !current[e.asset].favorite
            && current[e.asset].recordName == e.recordName && current[e.asset].changeTag == e.changeTag
            && e.asset in w.assets && Archived(h, w.files, s, w.assets[e.asset], at)
            && w.assets[e.asset].components != [] && ReceiptsOf(e.evidence, w.assets[e.asset].components)
            && s.reliefEnabled && k < s.maxAssets
            && Total(EntrySizes(m.entries), k) + e.size <= Share(m.quota, s.maxQuotaPercent)
  {
    var e := m.entries[k];
    if e.asset in w.assets {
      var t := w.assets[e.asset];
      EligibleIsArchived(h, w.files, s, t, at);
      EvidenceIs(t);
      if Eligible(h, w.files, s, t, at) {
        EligibleFactsClearIff(h, w.files, s, t, true, at);
      }
      assert ReceiptsOf(e.evidence, t.components) <==> Evidence(t) == e.evidence;
    }
    hide Eligible, Archived, Facts, FactsClear, Evidence, ReceiptsOf, Total, Share;
    LimitsOfEntry(s, m, k);
  }

  lemma LimitsOfEntry(s: Settings, m: Manifest, k: nat)
    requires k < |m.entries| && Sane(s)
    ensures var cap := Share(m.quota, s.maxQuotaPercent);
            WithinLimits(UsageAt(EntrySizes(m.entries), k), RunLimits(cap, s.maxAssets), m.entries[k].size) <==>
            k < s.maxAssets && Total(EntrySizes(m.entries), k) + m.entries[k].size <= cap
  {
    hide Total, Share;
    assert (k + 1) as real * 100.0 <= 100.0 * |m.entries| as real;
  }

  predicate Distinct(entries: seq<Entry>) {
    forall i, j :: 0 <= i < j < |entries| ==> entries[i].asset != entries[j].asset
  }

  predicate FreshManifest(m: Manifest) {
    m.status.PendingApproval? && Distinct(m.entries) && forall k :: 0 <= k < |m.entries| ==> !m.entries[k].completed
  }

  predicate GatesReady(w: World, healthy: bool) {
    healthy && w.deletionEnabled && !w.safetyLock
  }

  predicate CanApprove(s: Settings, w: World, m: nat, digest: Digest, healthy: bool, aboveTrigger: bool) {
    && w.phase.Idle? && s.milestoneApproved
    && m < |w.manifests| && w.manifests[m].digest == digest
    && w.manifests[m].status.PendingApproval? && w.manifests[m].expiresAt > w.now
    && GatesReady(w, healthy) && aboveTrigger
  }

  predicate Shaped(w: World) {
    && |w.books| == |w.manifests|
    && (!w.phase.Idle? ==> w.phase.m < |w.manifests| && w.phase.k <= |w.manifests[w.phase.m].entries|)
    && (w.phase.Replied? ==> w.phase.k < |w.manifests[w.phase.m].entries|)
  }

  function Lapsed(m: Manifest, now: int): Manifest {
    if m.status.PendingApproval? && m.expiresAt <= now then m.(status := Expired) else m
  }

  function Swept(manifests: seq<Manifest>, now: int): seq<Manifest> {
    seq(|manifests|, k requires 0 <= k < |manifests| => Lapsed(manifests[k], now))
  }

  function WithStatus(w: World, m: nat, status: Status): World
    requires m < |w.manifests|
  {
    w.(manifests := w.manifests[m := w.manifests[m].(status := status)])
  }

  function Validated(h: Hash, s: Settings, w: World): (v: World)
    requires Shaped(w) && Sane(s)
    ensures Shaped(v) && v.calls == w.calls
  {
    if !w.phase.Validating? || w.phase.k == |w.manifests[w.phase.m].entries| then w
    else if EntryOk(h, s, w, w.manifests[w.phase.m], w.phase.current, w.phase.at, w.phase.k)
    then w.(phase := Validating(w.phase.m, w.phase.at, w.phase.current, w.phase.k + 1),
            checked := w.checked + {Call(w.phase.m, w.phase.k)})
    else w.(phase := Idle)
  }

  function Begun(w: World): (v: World)
    requires Shaped(w)
    ensures Shaped(v) && v.calls == w.calls
  {
    if w.phase.Validating? && w.phase.k == |w.manifests[w.phase.m].entries|
    then WithStatus(w, w.phase.m, Executing).(phase := Deleting(w.phase.m, 0))
    else w
  }

  function Sent(w: World, confirmed: bool): (v: World)
    requires Shaped(w)
    ensures Shaped(v)
  {
    if !w.phase.Deleting? || w.phase.k == |w.manifests[w.phase.m].entries| then w
    else
      w.(calls := w.calls + [Call(w.phase.m, w.phase.k)],
         books := w.books[w.phase.m := w.books[w.phase.m].(sent := w.books[w.phase.m].sent + 1)],
         phase := Replied(w.phase.m, w.phase.k, confirmed))
  }

  function MarkDeleted(assets: map<AssetId, Asset>, a: AssetId, now: int): map<AssetId, Asset> {
    if a in assets then assets[a := assets[a].(remotelyDeletedAt := Some(now))] else assets
  }

  function Recorded(w: World): (v: World)
    requires Shaped(w)
    ensures Shaped(v) && v.calls == w.calls
  {
    if !w.phase.Replied? || !w.phase.confirmed then w
    else
      var m, k := w.phase.m, w.phase.k;
      var e := w.manifests[m].entries[k];
      w.(manifests := w.manifests[m := w.manifests[m].(entries := w.manifests[m].entries[k := e.(completed := true)])],
         books := w.books[m := w.books[m].(done := w.books[m].done + 1)],
         assets := MarkDeleted(w.assets, e.asset, w.now),
         phase := Deleting(m, k + 1))
  }

  /** PARTIAL when some entry completed, otherwise MANUAL_REVIEW; both switches close. */
  function Reviewed(w: World): (v: World)
    requires Shaped(w)
    ensures Shaped(v) && v.calls == w.calls
  {
    if !w.phase.Replied? || w.phase.confirmed then w
    else
      var some := exists k :: 0 <= k < |w.manifests[w.phase.m].entries| && w.manifests[w.phase.m].entries[k].completed;
      WithStatus(w, w.phase.m, if some then Partial else ManualReview)
      .(deletionEnabled := false, safetyLock := true, phase := Idle)
  }

  function Finished(w: World): (v: World)
    requires Shaped(w)
    ensures Shaped(v) && v.calls == w.calls
  {
    if w.phase.Deleting? && w.phase.k == |w.manifests[w.phase.m].entries|
    then WithStatus(w, w.phase.m, Completed).(phase := Idle)
    else w
  }

  /** The inventory may rewrite an asset, but it never clears the mark of a remote deletion. */
  function AssetSet(w: World, a: Asset): World {
    var kept := if a.id in w.assets && w.assets[a.id].remotelyDeletedAt.Some?
                then w.assets[a.id].remotelyDeletedAt else None;
    w.(assets := w.assets[a.id := a.(remotelyDeletedAt := kept)])
  }

  function Step(h: Hash, s: Settings, w: World, e: Event): (v: World)
    requires Shaped(w) && Sane(s)
    ensures Shaped(v)
  {
    match e
    case Create(m) =>
      if FreshManifest(m) then w.(manifests := w.manifests + [m], books := w.books + [Book(0, 0)]) else w
    case ExpireOld => w.(manifests := Swept(w.manifests, w.now))
    case Approve(m, digest, healthy, aboveTrigger) =>
      if CanApprove(s, w, m, digest, healthy, aboveTrigger)
      then w.(phase := Validating(m, w.now, w.remote, 0)) else w
    case Validate => Validated(h, s, w)
    case Begin => Begun(w)
    case Send(confirmed) => Sent(w, confirmed)
    case Record => Recorded(w)
    case Review => Reviewed(w)
    case Finish => Finished(w)
    case Crash => w.(phase := Idle)
    case Resume => w.(deletionEnabled := true, safetyLock := false)
    case Pause => w.(deletionEnabled := false, safetyLock := true)
    case SetAsset(a) => AssetSet(w, a)
    case SetFiles(files) => w.(files := files)
    case SetRemote(remote) => w.(remote := remote)
    case Tick(seconds) => w.(now := w.now + seconds)
  }

  function Run(h: Hash, s: Settings, w: World, events: seq<Event>): (v: World)
    requires Shaped(w) && Sane(s)
    ensures Shaped(v)
  {
    if events == [] then w else Step(h, s, Run(h, s, w, events[..|events| - 1]), events[|events| - 1])
  }

  const EMPTY := World([], [], map[], map[], map[], false, true, 0, Idle, [], {})

  // ---------------------------------------------------------------- invariants

  predicate Marked(w: World, a: AssetId) {
    a in w.assets && w.assets[a].remotelyDeletedAt.Some?
  }

  predicate Ready(w: World, a: AssetId) {
    a in w.assets && w.assets[a].remotelyDeletedAt.None?
  }

  /** Completed entries are a prefix, at most one sent entry is unrecorded, and the status tells which. */
  predicate ManifestOk(w: World, m: Manifest, b: Book) {
    && b.done <= b.sent <= b.done + 1
    && b.sent <= |m.entries|
    && Distinct(m.entries)
    && (forall k :: 0 <= k < |m.entries| ==> (m.entries[k].completed <==> k < b.done))
    && (forall k :: 0 <= k < |m.entries| && m.entries[k].completed ==> Marked(w, m.entries[k].asset))
    && (m.status.PendingApproval? || m.status.Expired? ==> b.sent == 0)
    && (m.status.Completed? ==> b.done == |m.entries|)
    && (m.status.Partial? ==> 0 < b.done < b.sent)
    && (m.status.ManualReview? ==> 0 == b.done < b.sent)
  }

  ghost predicate ManifestsOk(w: World) {
    |w.books| == |w.manifests| && forall m :: 0 <= m < |w.manifests| ==> ManifestOk(w, w.manifests[m], w.books[m])
  }

  predicate AllChecked(w: World, m: nat)
    requires m < |w.manifests|
  {
    forall k :: 0 <= k < |w.manifests[m].entries| ==> Call(m, k) in w.checked
  }

  predicate CallOk(w: World, c: Call) {
    && c.manifest < |w.manifests| == |w.books|
    && c.entry < w.books[c.manifest].sent
    && AllChecked(w, c.manifest)
  }

  ghost predicate CallsOk(w: World) {
    && (forall i :: 0 <= i < |w.calls| ==> CallOk(w, w.calls[i]))
    && (forall i, j :: 0 <= i < j < |w.calls| && w.calls[i].manifest == w.calls[j].manifest ==>
          w.calls[i].entry < w.calls[j].entry)
  }

  predicate PhaseOk(w: World)
    requires Shaped(w)
  {
    match w.phase
    case Idle => true
    case Validating(m, _, _, k) =>
      && w.books[m].sent == 0
      && (w.manifests[m].status.PendingApproval? || w.manifests[m].status.Expired?)
      && forall j :: 0 <= j < k ==> Call(m, j) in w.checked && Ready(w, w.manifests[m].entries[j].asset)
    case Deleting(m, k) =>
      && w.manifests[m].status.Executing? && w.books[m] == Book(k, k) && AllChecked(w, m)
      && forall j :: k <= j < |w.manifests[m].entries| ==> Ready(w, w.manifests[m].entries[j].asset)
    case Replied(m, k, _) =>
      && w.manifests[m].status.Executing? && w.books[m] == Book(k + 1, k) && AllChecked(w, m)
      && forall j :: k <= j < |w.manifests[m].entries| ==> Ready(w, w.manifests[m].entries[j].asset)
  }

  ghost predicate Inv(w: World) {
    Shaped(w) && ManifestsOk(w) && CallsOk(w) && PhaseOk(w)
  }

  /** The rest of the world may change as long as marks stay and what is ready stays ready. */
  predicate SameLedgers(w: World, v: World) {
    && v.books == w.books && v.calls == w.calls
    && |v.manifests| == |w.manifests|
    && w.checked <= v.checked
    && forall m :: 0 <= m < |w.manifests| ==> v.manifests[m].entries == w.manifests[m].entries
  }

  lemma CallsStayOk(w: World, v: World)
    requires CallsOk(w) && SameLedgers(w, v)
    ensures CallsOk(v)
  {
    forall i | 0 <= i < |v.calls| ensures CallOk(v, v.calls[i]) {
      assert CallOk(w, w.calls[i]);
    }
  }

  lemma EmptyIsInv()
    ensures Inv(EMPTY)
  {
  }

  lemma CreateKeepsInv(w: World, m: Manifest)
    requires Inv(w) && FreshManifest(m)
    ensures Inv(w.(manifests := w.manifests + [m], books := w.books + [Book(0, 0)]))
  {
    var v := w.(manifests := w.manifests + [m], books := w.books + [Book(0, 0)]);
    forall k | 0 <= k < |v.manifests| ensures ManifestOk(v, v.manifests[k], v.books[k]) {
      if k < |w.manifests| {
        assert ManifestOk(w, w.manifests[k], w.books[k]);
      }
    }
    forall i | 0 <= i < |v.calls| ensures CallOk(v, v.calls[i]) {
      assert CallOk(w, w.calls[i]);
    }
  }

  lemma SweepKeepsInv(w: World)
    requires Inv(w)
    ensures Inv(w.(manifests := Swept(w.manifests, w.now)))
  {
    var v := w.(manifests := Swept(w.manifests, w.now));
    forall k | 0 <= k < |v.manifests| ensures ManifestOk(v, v.manifests[k], v.books[k]) {
      assert ManifestOk(w, w.manifests[k], w.books[k]);
    }
    CallsStayOk(w, v);
  }

  lemma ApproveKeepsInv(s: Settings, w: World, m: nat, digest: Digest, healthy: bool, aboveTrigger: bool)
    requires Inv(w) && CanApprove(s, w, m, digest, healthy, aboveTrigger)
    ensures Inv(w.(phase := Validating(m, w.now, w.remote, 0)))
  {
    var v := w.(phase := Validating(m, w.now, w.remote, 0));
    assert ManifestOk(w, w.manifests[m], w.books[m]);
    ManifestsStayOk(w, v);
    CallsStayOk(w, v);
  }

  lemma ManifestsStayOk(w: World, v: World)
    requires ManifestsOk(w) && v.manifests == w.manifests && v.books == w.books
    requires forall a :: Marked(w, a) ==> Marked(v, a)
    ensures ManifestsOk(v)
  {
    forall k | 0 <= k < |v.manifests| ensures ManifestOk(v, v.manifests[k], v.books[k]) {
      assert ManifestOk(w, w.manifests[k], w.books[k]);
    }
  }

  lemma OkEntryIsReady(h: Hash, s: Settings, w: World, m: Manifest, current: map<AssetId, Remote>, at: int, k: nat)
    requires k < |m.entries| && Sane(s)
    requires EntryOk(h, s, w, m, current, at, k)
    ensures Ready(w, m.entries[k].asset)
  {
  }

  lemma MarksStay(w: World, v: World)
    requires v.assets == w.assets
    ensures forall a :: Marked(w, a) ==> Marked(v, a)
    ensures forall a :: Ready(w, a) ==> Ready(v, a)
  {
  }

  lemma ValidateKeepsInv(h: Hash, s: Settings, w: World)
    requires Inv(w) && Sane(s)
    ensures Inv(Validated(h, s, w))
  {
    hide EntryOk, Marked;
    var v := Validated(h, s, w);
    if w.phase.Validating? && w.phase.k < |w.manifests[w.phase.m].entries|
       && EntryOk(h, s, w, w.manifests[w.phase.m], w.phase.current, w.phase.at, w.phase.k) {
      OkEntryIsReady(h, s, w, w.manifests[w.phase.m], w.phase.current, w.phase.at, w.phase.k);
      assert Call(w.phase.m, w.phase.k) in v.checked;
    }
    MarksStay(w, v);
    ManifestsStayOk(w, v);
    CallsStayOk(w, v);
    hide ManifestsOk, CallsOk;
  }

  lemma StatusKeepsManifests(w: World, m: nat, status: Status)
    requires ManifestsOk(w) && m < |w.manifests|
    requires ManifestOk(w, w.manifests[m].(status := status), w.books[m])
    ensures ManifestsOk(WithStatus(w, m, status))
  {
    var v := WithStatus(w, m, status);
    forall k | 0 <= k < |v.manifests| ensures ManifestOk(v, v.manifests[k], v.books[k]) {
      assert ManifestOk(w, w.manifests[k], w.books[k]);
    }
  }

  lemma BeginKeepsInv(w: World)
    requires Inv(w)
    ensures Inv(Begun(w))
  {
    if w.phase.Validating? && w.phase.k == |w.manifests[w.phase.m].entries| {
      assert ManifestOk(w, w.manifests[w.phase.m], w.books[w.phase.m]);
      StatusKeepsManifests(w, w.phase.m, Executing);
      ManifestsStayOk(WithStatus(w, w.phase.m, Executing), Begun(w));
      CallsStayOk(w, Begun(w));
    }
  }

  lemma FinishKeepsInv(w: World)
    requires Inv(w)
    ensures Inv(Finished(w))
  {
    if w.phase.Deleting? && w.phase.k == |w.manifests[w.phase.m].entries| {
      assert ManifestOk(w, w.manifests[w.phase.m], w.books[w.phase.m]);
      StatusKeepsManifests(w, w.phase.m, Completed);
      ManifestsStayOk(WithStatus(w, w.phase.m, Completed), Finished(w));
      CallsStayOk(w, Finished(w));
    }
  }

  lemma SendKeepsInv(w: World, confirmed: bool)
    requires Inv(w)
    ensures Inv(Sent(w, confirmed))
  {
    if w.phase.Deleting? && w.phase.k < |w.manifests[w.phase.m].entries| {
      var v := Sent(w, confirmed);
      forall k | 0 <= k < |v.manifests| ensures ManifestOk(v, v.manifests[k], v.books[k]) {
        assert ManifestOk(w, w.manifests[k], w.books[k]);
      }
      forall i | 0 <= i < |v.calls| ensures CallOk(v, v.calls[i]) {
        if i < |w.calls| {
          assert CallOk(w, w.calls[i]);
        }
      }
    }
  }

  lemma ReviewKeepsInv(w: World)
    requires Inv(w)
    ensures Inv(Reviewed(w))
  {
    if w.phase.Replied? && !w.phase.confirmed {
      var m := w.phase.m;
      assert ManifestOk(w, w.manifests[m], w.books[m]);
      var v := Reviewed(w);
      if w.books[m].done > 0 {
        assert w.manifests[m].entries[0].completed;
      }
      StatusKeepsManifests(w, m, v.manifests[m].status);
      ManifestsStayOk(WithStatus(w, m, v.manifests[m].status), v);
      CallsStayOk(w, v);
    }
  }

  lemma RecordKeepsManifest(w: World)
    requires Inv(w) && w.phase.Replied? && w.phase.confirmed
    ensures var v := Recorded(w); ManifestOk(v, v.manifests[w.phase.m], v.books[w.phase.m])
  {
    var m, k := w.phase.m, w.phase.k;
    var v := Recorded(w);
    assert ManifestOk(w, w.manifests[m], w.books[m]);
    forall j | 0 <= j < |v.manifests[m].entries|
      ensures v.manifests[m].entries[j].asset == w.manifests[m].entries[j].asset
      ensures v.manifests[m].entries[j].completed <==> j < k + 1
      ensures v.manifests[m].entries[j].completed ==> Marked(v, v.manifests[m].entries[j].asset)
    {
      assert Marked(w, w.manifests[m].entries[j].asset) ==> Marked(v, w.manifests[m].entries[j].asset);
      assert Ready(w, w.manifests[m].entries[k].asset);
    }
  }

  lemma RecordKeepsInv(w: World)
    requires Inv(w)
    ensures Inv(Recorded(w))
  {
    if w.phase.Replied? && w.phase.confirmed {
      var m, k := w.phase.m, w.phase.k;
      var v := Recorded(w);
      RecordKeepsManifest(w);
      assert ManifestOk(w, w.manifests[m], w.books[m]);
      forall j | 0 <= j < |v.manifests| ensures ManifestOk(v, v.manifests[j], v.books[j]) {
        assert ManifestOk(w, w.manifests[j], w.books[j]);
        if j != m {
          forall i | 0 <= i < |v.manifests[j].entries| && v.manifests[j].entries[i].completed
            ensures Marked(v, v.manifests[j].entries[i].asset)
          {
            assert Marked(w, v.manifests[j].entries[i].asset);
          }
        }
      }
      forall i | 0 <= i < |v.calls| ensures CallOk(v, v.calls[i]) {
        assert CallOk(w, w.calls[i]);
      }
      forall j | k + 1 <= j < |v.manifests[m].entries| ensures Ready(v, v.manifests[m].entries[j].asset) {
        assert Ready(w, w.manifests[m].entries[j].asset);
        assert w.manifests[m].entries[k].asset != w.manifests[m].entries[j].asset;
      }
    }
  }

  /** Anything outside the executor, and a crash. */
  lemma OutsideKeepsInv(w: World, v: World)
    requires Inv(w)
    requires v.manifests == w.manifests && v.books == w.books && v.calls == w.calls && v.checked == w.checked
    requires v.phase == w.phase || v.phase.Idle?
    requires forall a :: (Marked(w, a) ==> Marked(v, a)) && (Ready(w, a) ==> Ready(v, a))
    ensures Inv(v)
  {
    ManifestsStayOk(w, v);
    CallsStayOk(w, v);
  }

  lemma StepKeepsInv(h: Hash, s: Settings, w: World, e: Event)
    requires Inv(w) && Sane(s)
    ensures Inv(Step(h, s, w, e))
  {
    hide Inv, Validated, Begun, Sent, Recorded, Reviewed, Finished, Swept, FreshManifest, CanApprove;
    InvParts(w);
    match e
    case Create(m) =>
      if FreshManifest(m) {
        CreateKeepsInv(w, m);
      }
    case ExpireOld => SweepKeepsInv(w);
    case Approve(m, digest, healthy, aboveTrigger) =>
      if CanApprove(s, w, m, digest, healthy, aboveTrigger) {
        ApproveKeepsInv(s, w, m, digest, healthy, aboveTrigger);
      }
    case Validate => ValidateKeepsInv(h, s, w);
    case Begin => BeginKeepsInv(w);
    case Send(confirmed) => SendKeepsInv(w, confirmed);
    case Record => RecordKeepsInv(w);
    case Review => ReviewKeepsInv(w);
    case Finish => FinishKeepsInv(w);
    case Crash => OutsideKeepsInv(w, w.(phase := Idle));
    case Resume => OutsideKeepsInv(w, w.(deletionEnabled := true, safetyLock := false));
    case Pause => OutsideKeepsInv(w, w.(deletionEnabled := false, safetyLock := true));
    case SetAsset(a) => OutsideKeepsInv(w, AssetSet(w, a));
    case SetFiles(files) => OutsideKeepsInv(w, w.(files := files));
    case SetRemote(remote) => OutsideKeepsInv(w, w.(remote := remote));
    case Tick(seconds) => OutsideKeepsInv(w, w.(now := w.now + seconds));
  }

  lemma InvParts(w: World)
    requires Inv(w)
    ensures Shaped(w)
  {
  }

  lemma {:induction false} RunKeepsInv(h: Hash, s: Settings, w: World, events: seq<Event>)
    requires Inv(w) && Sane(s)
    ensures Shaped(w) && Inv(Run(h, s, w, events))
  {
    hide Inv, Step;
    InvParts(w);
    if events != [] {
      RunKeepsInv(h, s, w, events[..|events| - 1]);
      StepKeepsInv(h, s, Run(h, s, w, events[..|events| - 1]), events[|events| - 1]);
    }
  }

  lemma RunNothing(h: Hash, s: Settings, w: World)
    requires Shaped(w) && Sane(s)
    ensures Run(h, s, w, []) == w
  {
  }

  lemma RunAppend(h: Hash, s: Settings, w: World, events: seq<Event>, e: Event)
    requires Shaped(w) && Sane(s)
    ensures Run(h, s, w, events + [e]) == Step(h, s, Run(h, s, w, events), e)
  {
    hide Step;
    assert (events + [e])[..|events|] == events;
  }

  // ---------------------------------------------------------------- what every run keeps

  /** No delete is sent before every entry of its manifest has passed validation, and an entry is
      noted as validated only by a step at which everything asked of it holds. */
  lemma ValidatedBeforeAnyDelete(h: Hash, s: Settings, events: seq<Event>, i: nat, k: nat)
    requires Sane(s)
    requires var w := Run(h, s, EMPTY, events);
             i < |w.calls| && w.calls[i].manifest < |w.manifests| && k < |w.manifests[w.calls[i].manifest].entries|
    ensures var w := Run(h, s, EMPTY, events); Call(w.calls[i].manifest, k) in w.checked
  {
    EmptyIsInv();
    RunKeepsInv(h, s, EMPTY, events);
    var w := Run(h, s, EMPTY, events);
    assert CallOk(w, w.calls[i]);
  }

  lemma CheckedMeansOk(h: Hash, s: Settings, w: World, e: Event, c: Call)
    requires Shaped(w) && Sane(s)
    requires c !in w.checked && c in Step(h, s, w, e).checked
    ensures c.manifest < |w.manifests| && c.entry < |w.manifests[c.manifest].entries|
    ensures w.phase.Validating? && e.Validate?
    ensures EntryOk(h, s, w, w.manifests[c.manifest], w.phase.current, w.phase.at, c.entry)
  {
    hide EntryOk;
    if !e.Validate? {
      OnlyValidateChecks(h, s, w, e);
    }
    hide Begun, Sent, Recorded, Reviewed, Finished;
  }

  lemma OnlyValidateChecks(h: Hash, s: Settings, w: World, e: Event)
    requires Shaped(w) && Sane(s) && !e.Validate?
    ensures Step(h, s, w, e).checked == w.checked
  {
    hide Validated, EntryOk, CanApprove, FreshManifest, Swept, MarkDeleted;
  }

  /** Over all runs, with crashes anywhere and any number of approvals: at most one delete call for
      each entry of a manifest, and in order. */
  lemma EachEntryIsSentOnce(h: Hash, s: Settings, events: seq<Event>, i: nat, j: nat)
    requires Sane(s)
    requires i < j < |Run(h, s, EMPTY, events).calls|
    ensures var calls := Run(h, s, EMPTY, events).calls;
            calls[i].manifest == calls[j].manifest ==> calls[i].entry < calls[j].entry
  {
    EmptyIsInv();
    RunKeepsInv(h, s, EMPTY, events);
  }

  /** The completed entries of a manifest are a prefix; the status says how far it got. */
  lemma StatusTellsTheTruth(h: Hash, s: Settings, events: seq<Event>, m: nat)
    requires Sane(s) && m < |Run(h, s, EMPTY, events).manifests|
    ensures var w := Run(h, s, EMPTY, events);
            && m < |w.books| && ManifestOk(w, w.manifests[m], w.books[m])
            && var entries := w.manifests[m].entries;
            && (w.manifests[m].status.Partial? ==> exists k :: 0 <= k < |entries| && entries[k].completed)
            && (w.manifests[m].status.ManualReview? ==> forall k :: 0 <= k < |entries| ==> !entries[k].completed)
            && (w.manifests[m].status.Completed? ==> forall k :: 0 <= k < |entries| ==> entries[k].completed)
  {
    EmptyIsInv();
    RunKeepsInv(h, s, EMPTY, events);
    var w := Run(h, s, EMPTY, events);
    assert ManifestOk(w, w.manifests[m], w.books[m]);
    if w.manifests[m].status.Partial? {
      assert w.manifests[m].entries[0].completed;
    }
  }

  /** The first n delete calls of a manifest. */
  function FirstCalls(m: nat, n: nat): seq<Call> {
    seq(n, k requires 0 <= k < n => Call(m, k))
  }

  lemma NoCalls(m: nat)
    ensures FirstCalls(m, 0) == []
  {
  }

  lemma OneMoreCall(m: nat, n: nat)
    ensures FirstCalls(m, n + 1) == FirstCalls(m, n) + [Call(m, n)]
  {
  }

  // ---------------------------------------------------------------- assets across manifests

  lemma MarkStays(h: Hash, s: Settings, w: World, e: Event, a: AssetId)
    requires Shaped(w) && Sane(s) && Marked(w, a)
    ensures Marked(Step(h, s, w, e), a)
  {
    hide EntryOk, Swept, FreshManifest, CanApprove;
  }

  /** The asset of a call. */
  function Target(w: World, c: Call): Option<AssetId> {
    if c.manifest < |w.manifests| && c.entry < |w.manifests[c.manifest].entries|
    then Some(w.manifests[c.manifest].entries[c.entry].asset) else None
  }

  /** A step sends at most one delete, and never for an asset whose deletion is on record. */
  lemma NoSendForMarked(h: Hash, s: Settings, w: World, e: Event)
    requires Inv(w) && Sane(s)
    ensures Shaped(w)
    ensures var v := Step(h, s, w, e);
            v.calls == w.calls || (exists c: Call {:trigger Target(w, c)} :: v.calls == w.calls + [c]
                                    && Target(w, c).Some? && !Marked(w, Target(w, c).value))
  {
    hide ManifestsOk, CallsOk;
    if e.Send? && w.phase.Deleting? && w.phase.k < |w.manifests[w.phase.m].entries| {
      var c := Call(w.phase.m, w.phase.k);
      assert Ready(w, w.manifests[w.phase.m].entries[w.phase.k].asset);
      assert Step(h, s, w, e).calls == w.calls + [c] && Target(w, c).Some?;
      hide PhaseOk, Sent;
    } else {
      OnlySendCalls(h, s, w, e);
      hide PhaseOk, Step;
    }
  }

  lemma OnlySendCalls(h: Hash, s: Settings, w: World, e: Event)
    requires Shaped(w) && Sane(s)
    requires !(e.Send? && w.phase.Deleting? && w.phase.k < |w.manifests[w.phase.m].entries|)
    ensures Step(h, s, w, e).calls == w.calls
  {
    hide Validated, Begun, Recorded, Reviewed, Finished, CanApprove, FreshManifest, Swept;
  }

  lemma TargetStays(h: Hash, s: Settings, w: World, e: Event, c: Call)
    requires Shaped(w) && Sane(s) && Target(w, c).Some?
    ensures Target(Step(h, s, w, e), c) == Target(w, c)
  {
    hide EntryOk, CanApprove, FreshManifest, MarkDeleted;
  }

  /** Across manifests: once the deletion of an asset is on record, no later call of any run is for it. */
  lemma {:induction false} DeletedAssetIsNeverSentAgain(h: Hash, s: Settings, w: World, events: seq<Event>, a: AssetId)
    requires Inv(w) && Sane(s) && Marked(w, a)
    ensures Shaped(w)
    ensures var v := Run(h, s, w, events);
            && Marked(v, a) && |v.calls| >= |w.calls|
            && forall i :: |w.calls| <= i < |v.calls| ==> Target(v, v.calls[i]).Some? && Target(v, v.calls[i]).value != a
  {
    hide Inv, Step, Marked, Target;
    InvParts(w);
    if events != [] {
      var n := |events| - 1;
      DeletedAssetIsNeverSentAgain(h, s, w, events[..n], a);
      RunKeepsInv(h, s, w, events[..n]);
      var u := Run(h, s, w, events[..n]);
      var v := Step(h, s, u, events[n]);
      MarkStays(h, s, u, events[n], a);
      NoSendForMarked(h, s, u, events[n]);
      forall i | |w.calls| <= i < |v.calls| ensures Target(v, v.calls[i]).Some? && Target(v, v.calls[i]).value != a {
        if i < |u.calls| {
          assert v.calls[i] == u.calls[i];
        }
        TargetStays(h, s, u, events[n], v.calls[i]);
      }
      assert v == Run(h, s, w, events);
    }
  }
}
