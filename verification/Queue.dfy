/** The durable lease queue as a state machine: leases, heartbeats, lost leases, recovery, backoff
    and dead letters (src/mnema/jobs/queue.py). Candidate read and claim are separate steps here;
    Lease is the two without a gap. */
module Queue {
  import opened Basics

  type Worker = string
  type JobId = nat

  datatype Status = Pending | Running | Succeeded | Retry | ManualReview

  /** `leaseOwner` and `leaseExpiresAt` are cleared together. */
  datatype Job = Job(
    key: string,
    adapter: string,
    status: Status,
    attempts: nat,
    maxAttempts: int,
    availableAt: int,
    leaseOwner: Option<Worker>,
    leaseExpiresAt: Option<int>,
    lastError: string)

  /** What happened to a job so far, and which grant was its latest; the queue itself keeps only
      `attempts`. */
  datatype Ledger = Ledger(grants: nat, failures: nat, recoveries: nat, successes: nat, latest: nat)

  /** A lease that was handed to a worker: which attempt of which job. */
  datatype Grant = Grant(worker: Worker, job: JobId, attempt: nat)

  datatype Limits = Limits(global: nat, perAdapter: nat)

  datatype CandidateRead = CandidateRead(job: JobId, readAt: int)

  datatype World = World(
    jobs: seq<Job>,
    books: seq<Ledger>,
    handed: seq<Grant>,
    candidates: map<Worker, CandidateRead>,
    now: int)

  datatype Event =
    | Enqueue(key: string, adapter: string, maxAttempts: int)
    | Read(worker: Worker, adapter: string)
    | Claim(worker: Worker, seconds: nat)
    | Lease(worker: Worker, adapter: string, seconds: nat)
    | Heartbeat(worker: Worker, job: JobId, seconds: nat)
    | Succeed(worker: Worker, job: JobId)
    | Fail(worker: Worker, job: JobId, error: string, backoff: nat)
    | Recover
    | Tick(seconds: nat)

  // ---------------------------------------------------------------- one job

  predicate Waiting(j: Job) {
    j.status.Pending? || j.status.Retry?
  }

  predicate Finished(j: Job) {
    j.status.Succeeded? || j.status.ManualReview?
  }

  predicate Owns(j: Job, worker: Worker) {
    j.status.Running? && j.leaseOwner == Some(worker)
  }

  predicate Unexpired(j: Job, now: int) {
    j.status.Running? && j.leaseExpiresAt.Some? && j.leaseExpiresAt.value > now
  }

  predicate Expired(j: Job, now: int) {
    j.status.Running? && j.leaseExpiresAt.Some? && j.leaseExpiresAt.value < now
  }

  function Claimed(j: Job, worker: Worker, expiresAt: int): Job {
    j.(status := Running, leaseOwner := Some(worker), leaseExpiresAt := Some(expiresAt), attempts := j.attempts + 1)
  }

  function Released(j: Job, status: Status): Job {
    j.(status := status, leaseOwner := None, leaseExpiresAt := None)
  }

  function Pow2(n: nat): nat {
    if n == 0 then 1 else 2 * Pow2(n - 1)
  }

  /** Seconds until the next attempt after this many; a running job has had at least one. */
  function Backoff(attempts: nat, base: nat): nat {
    Pow2(if attempts < 1 then 0 else if attempts > 11 then 10 else attempts - 1) * base
  }

  function Failed(j: Job, now: int, backoff: nat): Job {
    if j.attempts >= j.maxAttempts then Released(j, ManualReview)
    else Released(j, Retry).(availableAt := now + Backoff(j.attempts, backoff))
  }

  function AfterFail(j: Job, worker: Worker, now: int, error: string, backoff: nat): Job {
    if j.leaseOwner.Some? && j.leaseOwner.value != worker then j
    else if !Owns(j, worker) then j.(lastError := error)
    else Failed(j.(lastError := error), now, backoff)
  }

  function Recovered(j: Job, now: int): Job {
    if Expired(j, now)
    then Released(j, Retry).(availableAt := now, lastError := "lease expired; recovered after interruption")
    else j
  }

  // ---------------------------------------------------------------- queries

  predicate Matches(j: Job, adapter: Option<string>) {
    adapter.None? || j.adapter == adapter.value
  }

  /** Jobs running under an unexpired lease, on every adapter or on one. */
  function Count(jobs: seq<Job>, now: int, adapter: Option<string>): nat {
    if jobs == [] then 0
    else
      var j := jobs[|jobs| - 1];
      Count(jobs[..|jobs| - 1], now, adapter) + if Unexpired(j, now) && Matches(j, adapter) then 1 else 0
  }

  /** The running jobs whose lease ends after now, on every adapter or on one. */
  function RunningNow(jobs: seq<Job>, now: int, adapter: Option<string>): set<JobId> {
    set k: nat | k < |jobs| && jobs[k].status.Running? && jobs[k].leaseExpiresAt.Some?
                 && jobs[k].leaseExpiresAt.value > now && (adapter.Some? ==> jobs[k].adapter == adapter.value)
  }

  lemma {:induction false} CountIsSize(jobs: seq<Job>, now: int, adapter: Option<string>)
    ensures Count(jobs, now, adapter) == |RunningNow(jobs, now, adapter)|
  {
    hide RunningNow;
    if jobs == [] {
      NoneRunning(now, adapter);
    } else {
      var n := |jobs| - 1;
      CountIsSize(jobs[..n], now, adapter);
      OneMoreRunning(jobs, now, adapter);
    }
  }

  lemma NoneRunning(now: int, adapter: Option<string>)
    ensures RunningNow([], now, adapter) == {}
  {
  }

  lemma OneMoreRunning(jobs: seq<Job>, now: int, adapter: Option<string>)
    requires jobs != []
    ensures var n := |jobs| - 1;
            && n !in RunningNow(jobs[..n], now, adapter)
            && RunningNow(jobs, now, adapter)
               == RunningNow(jobs[..n], now, adapter) + if Unexpired(jobs[n], now) && Matches(jobs[n], adapter) then {n} else {}
  {
    var n := |jobs| - 1;
    assert forall k: nat :: k < n ==> jobs[..n][k] == jobs[k];
  }

  predicate Room(jobs: seq<Job>, now: int, adapter: string, limits: Limits) {
    && Count(jobs, now, None) < limits.global
    && Count(jobs, now, Some(adapter)) < limits.perAdapter
  }

  predicate Runnable(j: Job, adapter: string, now: int) {
    j.adapter == adapter && Waiting(j) && j.availableAt <= now
  }

  /** The first runnable job by availability, then by identifier. */
  function Candidate(jobs: seq<Job>, adapter: string, now: int): (c: Option<JobId>)
    ensures c.Some? ==> c.value < |jobs| && Runnable(jobs[c.value], adapter, now)
    ensures c.None? ==> forall k :: 0 <= k < |jobs| ==> !Runnable(jobs[k], adapter, now)
    ensures forall k :: c.Some? && 0 <= k < |jobs| && Runnable(jobs[k], adapter, now) ==>
              jobs[c.value].availableAt < jobs[k].availableAt
              || (jobs[c.value].availableAt == jobs[k].availableAt && c.value <= k)
  {
    if jobs == [] then None
    else
      var n := |jobs| - 1;
      var earlier := Candidate(jobs[..n], adapter, now);
      if !Runnable(jobs[n], adapter, now) then earlier
      else if earlier.None? || jobs[n].availableAt < jobs[earlier.value].availableAt then Some(n)
      else earlier
  }

  function Keyed(jobs: seq<Job>, key: string): (k: Option<JobId>)
    ensures k.Some? ==> k.value < |jobs| && jobs[k.value].key == key
    ensures k.None? ==> forall i :: 0 <= i < |jobs| ==> jobs[i].key != key
  {
    if jobs == [] then None
    else if jobs[|jobs| - 1].key == key then Some(|jobs| - 1)
    else Keyed(jobs[..|jobs| - 1], key)
  }

  // ---------------------------------------------------------------- steps

  function Put(w: World, j: JobId, job: Job, book: Ledger): World
    requires j < |w.jobs| && |w.books| == |w.jobs|
  {
    w.(jobs := w.jobs[j := job], books := w.books[j := book])
  }

  predicate Shaped(w: World) {
    |w.books| == |w.jobs|
  }

  function Enqueued(w: World, key: string, adapter: string, maxAttempts: int): World {
    if Keyed(w.jobs, key).Some? then w
    else w.(jobs := w.jobs + [Job(key, adapter, Pending, 0, maxAttempts, w.now, None, None, "")],
            books := w.books + [Ledger(0, 0, 0, 0, 0)])
  }

  function AfterRead(w: World, worker: Worker, adapter: string, limits: Limits): World {
    var c := Candidate(w.jobs, adapter, w.now);
    if !Room(w.jobs, w.now, adapter, limits) || c.None? then w.(candidates := w.candidates - {worker})
    else w.(candidates := w.candidates[worker := CandidateRead(c.value, w.now)])
  }

  /** The conditional update: it takes the job only if it is still waiting. */
  function AfterClaim(w: World, worker: Worker, seconds: nat): World
    requires Shaped(w)
  {
    if worker !in w.candidates then w
    else
      var r := w.candidates[worker];
      var v := w.(candidates := w.candidates - {worker});
      if r.job >= |w.jobs| || !Waiting(w.jobs[r.job]) then v
      else
        var book := w.books[r.job];
        Put(v.(handed := w.handed + [Grant(worker, r.job, w.jobs[r.job].attempts + 1)]), r.job,
            Claimed(w.jobs[r.job], worker, r.readAt + seconds), book.(grants := book.grants + 1, latest := |w.handed|))
  }

  function AfterHeartbeat(w: World, worker: Worker, j: JobId, seconds: nat): World
    requires Shaped(w)
  {
    if j >= |w.jobs| || !Owns(w.jobs[j], worker) then w
    else Put(w, j, w.jobs[j].(leaseExpiresAt := Some(w.now + seconds)), w.books[j])
  }

  function AfterSucceed(w: World, worker: Worker, j: JobId): World
    requires Shaped(w)
  {
    if j >= |w.jobs| || !Owns(w.jobs[j], worker) then w
    else Put(w, j, Released(w.jobs[j], Succeeded), w.books[j].(successes := w.books[j].successes + 1))
  }

  function AfterFailure(w: World, worker: Worker, j: JobId, error: string, backoff: nat): World
    requires Shaped(w)
  {
    if j >= |w.jobs| then w
    else
      var owned := Owns(w.jobs[j], worker);
      Put(w, j, AfterFail(w.jobs[j], worker, w.now, error, backoff),
          if owned then w.books[j].(failures := w.books[j].failures + 1) else w.books[j])
  }

  function AllRecovered(jobs: seq<Job>, now: int): seq<Job> {
    seq(|jobs|, k requires 0 <= k < |jobs| => Recovered(jobs[k], now))
  }

  function Noted(j: Job, b: Ledger, now: int): Ledger {
    if Expired(j, now) then b.(recoveries := b.recoveries + 1) else b
  }

  function AfterRecover(w: World): World
    requires Shaped(w)
  {
    w.(jobs := AllRecovered(w.jobs, w.now),
       books := seq(|w.books|, k requires 0 <= k < |w.books| => Noted(w.jobs[k], w.books[k], w.now)))
  }

  function Step(w: World, e: Event, limits: Limits): (v: World)
    requires Shaped(w)
    ensures Shaped(v)
  {
    match e
    case Enqueue(key, adapter, maxAttempts) => Enqueued(w, key, adapter, maxAttempts)
    case Read(worker, adapter) => AfterRead(w, worker, adapter, limits)
    case Claim(worker, seconds) => AfterClaim(w, worker, seconds)
    case Lease(worker, adapter, seconds) => AfterClaim(AfterRead(w, worker, adapter, limits), worker, seconds)
    case Heartbeat(worker, j, seconds) => AfterHeartbeat(w, worker, j, seconds)
    case Succeed(worker, j) => AfterSucceed(w, worker, j)
    case Fail(worker, j, error, backoff) => AfterFailure(w, worker, j, error, backoff)
    case Recover => AfterRecover(w)
    case Tick(seconds) => w.(now := w.now + seconds)
  }

  function Run(w: World, events: seq<Event>, limits: Limits): (v: World)
    requires Shaped(w)
    ensures Shaped(v)
  {
    if events == [] then w else Step(Run(w, events[..|events| - 1], limits), events[|events| - 1], limits)
  }

  const EMPTY := World([], [], [], map[], 0)

  // ---------------------------------------------------------------- accounting

  function AtLeastOne(n: int): int {
    if n < 1 then 1 else n
  }

  /** The accounting of one job. */
  predicate Balanced(j: Job, b: Ledger) {
    && j.attempts == b.grants
    && j.attempts == b.failures + b.recoveries + b.successes + (if j.status.Running? then 1 else 0)
    && (j.status.Running? <==> j.leaseOwner.Some?)
    && (j.status.Running? <==> j.leaseExpiresAt.Some?)
    && (j.status.Pending? ==> j.attempts == 0)
    && (j.status.Succeeded? <==> b.successes == 1)
    && b.successes <= 1
    && j.attempts <= AtLeastOne(j.maxAttempts) + b.recoveries
    && (Waiting(j) ==> j.attempts < AtLeastOne(j.maxAttempts) + b.recoveries)
    && (j.status.ManualReview? ==> j.attempts >= j.maxAttempts && b.failures > 0)
  }

  /** Every grant is of a job there is, attempts of one job are handed out in strictly rising order,
      and a running job is owned by the worker that was handed its newest attempt. */
  ghost predicate Exclusive(w: World) {
    && Shaped(w)
    && (forall k :: 0 <= k < |w.handed| ==> HandedOut(w, w.handed[k]))
    && (forall k, l :: 0 <= k < l < |w.handed| && w.handed[k].job == w.handed[l].job ==>
          w.handed[k].attempt < w.handed[l].attempt)
    && (forall j :: 0 <= j < |w.jobs| ==> HeldByLatest(w, j))
  }

  predicate HandedOut(w: World, g: Grant) {
    g.job < |w.jobs| && 0 < g.attempt <= w.jobs[g.job].attempts
  }

  predicate HeldByLatest(w: World, j: JobId)
    requires j < |w.jobs| == |w.books|
  {
    w.jobs[j].leaseOwner.Some? ==>
      && w.books[j].latest < |w.handed|
      && w.handed[w.books[j].latest] == Grant(w.jobs[j].leaseOwner.value, j, w.jobs[j].attempts)
  }

  ghost predicate BooksBalance(w: World) {
    Shaped(w) && forall j :: 0 <= j < |w.jobs| ==> Balanced(w.jobs[j], w.books[j])
  }

  ghost predicate OneJobPerKey(jobs: seq<Job>) {
    forall i, j :: 0 <= i < j < |jobs| ==> jobs[i].key != jobs[j].key
  }

  ghost predicate Inv(w: World) {
    BooksBalance(w) && Exclusive(w) && OneJobPerKey(w.jobs)
  }

  predicate CanClaim(w: World, worker: Worker) {
    && worker in w.candidates && w.candidates[worker].job < |w.jobs|
    && Waiting(w.jobs[w.candidates[worker].job])
  }

  lemma ClaimKeepsExclusive(w: World, worker: Worker, seconds: nat)
    requires Exclusive(w) && CanClaim(w, worker)
    ensures Exclusive(AfterClaim(w, worker, seconds))
  {
    hide Waiting;
    var v := AfterClaim(w, worker, seconds);
    var n := |w.handed|;
    var c := w.candidates[worker].job;
    var g := Grant(worker, c, w.jobs[c].attempts + 1);
    assert v.handed == w.handed + [g];
    forall k | 0 <= k < |v.handed| ensures HandedOut(v, v.handed[k]) {
      if k < n {
        assert HandedOut(w, w.handed[k]);
      }
    }
    forall j | 0 <= j < |v.jobs| ensures HeldByLatest(v, j) {
      assert HeldByLatest(w, j);
    }
    forall k, l | 0 <= k < l < |v.handed| && v.handed[k].job == v.handed[l].job
      ensures v.handed[k].attempt < v.handed[l].attempt
    {
      assert HandedOut(w, w.handed[k]);
    }
  }

  lemma ClaimKeepsInv(w: World, worker: Worker, seconds: nat)
    requires Inv(w)
    ensures Inv(AfterClaim(w, worker, seconds))
  {
    if CanClaim(w, worker) {
      ClaimKeepsExclusive(w, worker, seconds);
      var c := w.candidates[worker].job;
      assert Balanced(w.jobs[c], w.books[c]);
      ClaimBalances(w.jobs[c], w.books[c], worker, w.candidates[worker].readAt + seconds, |w.handed|);
      hide Balanced, Exclusive, Waiting, Claimed;
      assert BooksBalance(AfterClaim(w, worker, seconds));
    } else {
      IdleKeepsInv(w, w.candidates - {worker}, w.now);
    }
  }

  lemma ClaimBalances(j: Job, b: Ledger, worker: Worker, expiresAt: int, latest: nat)
    requires Balanced(j, b) && Waiting(j)
    ensures Balanced(Claimed(j, worker, expiresAt), b.(grants := b.grants + 1, latest := latest))
    ensures Claimed(j, worker, expiresAt).key == j.key
  {
  }

  /** An update of one job that hands out nothing. */
  lemma JobUpdateKeepsInv(w: World, j: JobId, job: Job, book: Ledger)
    requires Inv(w) && j < |w.jobs|
    requires Balanced(job, book)
    requires job.key == w.jobs[j].key && job.attempts == w.jobs[j].attempts && book.latest == w.books[j].latest
    requires job.leaseOwner.Some? ==> job.leaseOwner == w.jobs[j].leaseOwner
    ensures Inv(Put(w, j, job, book))
  {
    hide Balanced;
    var v := Put(w, j, job, book);
    forall k | 0 <= k < |v.handed| ensures HandedOut(v, v.handed[k]) {
      assert HandedOut(w, w.handed[k]);
    }
    forall i | 0 <= i < |v.jobs| ensures HeldByLatest(v, i) {
      assert HeldByLatest(w, i);
    }
  }

  lemma RecoveryBalances(j: Job, b: Ledger, now: int)
    requires Balanced(j, b)
    ensures Balanced(Recovered(j, now), Noted(j, b, now))
    ensures Recovered(j, now).key == j.key && Recovered(j, now).attempts == j.attempts
    ensures Recovered(j, now).leaseOwner.Some? ==> Recovered(j, now).leaseOwner == j.leaseOwner
  {
  }

  lemma RecoverKeepsInv(w: World)
    requires Inv(w)
    ensures Inv(AfterRecover(w))
  {
    hide Balanced, Recovered;
    var v := AfterRecover(w);
    forall j | 0 <= j < |w.jobs|
      ensures Balanced(v.jobs[j], v.books[j]) && v.jobs[j].key == w.jobs[j].key && HeldByLatest(v, j)
      ensures v.jobs[j].attempts == w.jobs[j].attempts
    {
      RecoveryBalances(w.jobs[j], w.books[j], w.now);
      assert HeldByLatest(w, j);
    }
    forall k | 0 <= k < |v.handed| ensures HandedOut(v, v.handed[k]) {
      assert HandedOut(w, w.handed[k]);
    }
  }

  lemma FreshBalances(j: Job)
    requires j.status.Pending? && j.attempts == 0 && j.leaseOwner.None? && j.leaseExpiresAt.None?
    ensures Balanced(j, Ledger(0, 0, 0, 0, 0))
  {
  }

  lemma EnqueueKeepsInv(w: World, key: string, adapter: string, maxAttempts: int)
    requires Inv(w)
    ensures Inv(Enqueued(w, key, adapter, maxAttempts))
  {
    var v := Enqueued(w, key, adapter, maxAttempts);
    if v == w {
      return;
    }
    FreshBalances(v.jobs[|w.jobs|]);
    hide Balanced;
    forall k | 0 <= k < |v.handed| ensures HandedOut(v, v.handed[k]) {
      assert HandedOut(w, w.handed[k]);
    }
    forall j | 0 <= j < |w.jobs| ensures HeldByLatest(v, j) && Balanced(v.jobs[j], v.books[j]) {
      assert HeldByLatest(w, j) && Balanced(w.jobs[j], w.books[j]);
    }
  }

  lemma FailureBalances(j: Job, b: Ledger, worker: Worker, now: int, error: string, backoff: nat)
    requires Balanced(j, b)
    ensures var k := AfterFail(j, worker, now, error, backoff);
            && Balanced(k, if Owns(j, worker) then b.(failures := b.failures + 1) else b)
            && k.key == j.key && k.attempts == j.attempts
            && (k.leaseOwner.Some? ==> k.leaseOwner == j.leaseOwner)
  {
    hide Backoff;
  }

  lemma FailureKeepsInv(w: World, worker: Worker, j: JobId, error: string, backoff: nat)
    requires Inv(w)
    ensures Inv(AfterFailure(w, worker, j, error, backoff))
  {
    if j < |w.jobs| {
      hide AfterFail;
      var book := if Owns(w.jobs[j], worker) then w.books[j].(failures := w.books[j].failures + 1) else w.books[j];
      assert Balanced(w.jobs[j], w.books[j]);
      FailureBalances(w.jobs[j], w.books[j], worker, w.now, error, backoff);
      JobUpdateKeepsInv(w, j, AfterFail(w.jobs[j], worker, w.now, error, backoff), book);
    }
  }

  lemma OwnerStepBalances(j: Job, b: Ledger, expiresAt: int)
    requires Balanced(j, b) && j.status.Running?
    ensures Balanced(j.(leaseExpiresAt := Some(expiresAt)), b)
    ensures Balanced(Released(j, Succeeded), b.(successes := b.successes + 1))
  {
  }

  lemma OwnerStepKeepsInv(w: World, worker: Worker, j: JobId, seconds: nat)
    requires Inv(w)
    ensures Inv(AfterHeartbeat(w, worker, j, seconds)) && Inv(AfterSucceed(w, worker, j))
  {
    if j < |w.jobs| && Owns(w.jobs[j], worker) {
      assert Balanced(w.jobs[j], w.books[j]);
      OwnerStepBalances(w.jobs[j], w.books[j], w.now + seconds);
      hide Balanced, Inv;
      JobUpdateKeepsInv(w, j, w.jobs[j].(leaseExpiresAt := Some(w.now + seconds)), w.books[j]);
      JobUpdateKeepsInv(w, j, Released(w.jobs[j], Succeeded), w.books[j].(successes := w.books[j].successes + 1));
    }
  }

  lemma IdleKeepsInv(w: World, candidates: map<Worker, CandidateRead>, now: int)
    requires Inv(w)
    ensures Inv(w.(candidates := candidates, now := now))
  {
    var v := w.(candidates := candidates, now := now);
    forall k | 0 <= k < |v.handed| ensures HandedOut(v, v.handed[k]) {
      assert HandedOut(w, w.handed[k]);
    }
    forall j | 0 <= j < |w.jobs| ensures HeldByLatest(v, j) && Balanced(v.jobs[j], v.books[j]) {
      assert HeldByLatest(w, j) && Balanced(w.jobs[j], w.books[j]);
    }
  }

  lemma StepKeepsInv(w: World, e: Event, limits: Limits)
    requires Inv(w)
    ensures Inv(Step(w, e, limits))
  {
    hide Inv, Enqueued, AfterRecover, AfterClaim, AfterHeartbeat, AfterSucceed, AfterFailure, Candidate, Count;
    InvIsShaped(w);
    match e
    case Enqueue(key, adapter, maxAttempts) => EnqueueKeepsInv(w, key, adapter, maxAttempts);
    case Read(worker, adapter) => IdleKeepsInv(w, AfterRead(w, worker, adapter, limits).candidates, w.now);
    case Claim(worker, seconds) => ClaimKeepsInv(w, worker, seconds);
    case Lease(worker, adapter, seconds) =>
      IdleKeepsInv(w, AfterRead(w, worker, adapter, limits).candidates, w.now);
      ClaimKeepsInv(AfterRead(w, worker, adapter, limits), worker, seconds);
    case Heartbeat(worker, j, seconds) => OwnerStepKeepsInv(w, worker, j, seconds);
    case Succeed(worker, j) => OwnerStepKeepsInv(w, worker, j, 0);
    case Fail(worker, j, error, backoff) => FailureKeepsInv(w, worker, j, error, backoff);
    case Recover => RecoverKeepsInv(w);
    case Tick(seconds) => IdleKeepsInv(w, w.candidates, w.now + seconds);
  }

  lemma InvIsShaped(w: World)
    requires Inv(w)
    ensures Shaped(w)
  {
  }

  lemma EmptyIsInv()
    ensures Inv(EMPTY)
  {
  }

  lemma {:induction false} RunKeepsInv(events: seq<Event>, limits: Limits)
    ensures Inv(Run(EMPTY, events, limits))
  {
    hide Inv, Step;
    if events == [] {
      EmptyIsInv();
    } else {
      RunKeepsInv(events[..|events| - 1], limits);
      StepKeepsInv(Run(EMPTY, events[..|events| - 1], limits), events[|events| - 1], limits);
    }
  }

  // ---------------------------------------------------------------- what every run keeps

  /** Attempts are grants, and every grant ended in an owned failure, a recovery or a success unless
      it still runs; owner and expiry are set exactly while running; recoveries are the only way past
      the allowed attempts, and a job is dead-lettered only after them. */
  lemma LeaseAccounting(events: seq<Event>, limits: Limits, j: JobId)
    requires j < |Run(EMPTY, events, limits).jobs|
    ensures var w := Run(EMPTY, events, limits); Balanced(w.jobs[j], w.books[j])
  {
    RunKeepsInv(events, limits);
  }

  /** However reads, claims, heartbeats and recoveries interleave: no attempt of a job is ever handed
      to two workers, nor twice to one. */
  lemma NoGrantIsHandedTwice(events: seq<Event>, limits: Limits, k: nat, l: nat)
    requires var w := Run(EMPTY, events, limits);
             && k < |w.handed| && l < |w.handed|
             && w.handed[k].job == w.handed[l].job && w.handed[k].attempt == w.handed[l].attempt
    ensures k == l
  {
    RunKeepsInv(events, limits);
  }

  /** A running job is owned by the worker that was handed its newest attempt, and by nobody else. */
  lemma OwnerHoldsTheNewestGrant(events: seq<Event>, limits: Limits, k: nat)
    requires var w := Run(EMPTY, events, limits);
             && k < |w.handed| && w.handed[k].job < |w.jobs|
             && w.jobs[w.handed[k].job].status.Running?
             && w.handed[k].attempt == w.jobs[w.handed[k].job].attempts
    ensures var w := Run(EMPTY, events, limits);
            w.jobs[w.handed[k].job].leaseOwner == Some(w.handed[k].worker)
  {
    RunKeepsInv(events, limits);
    var w := Run(EMPTY, events, limits);
    var j := w.handed[k].job;
    assert Balanced(w.jobs[j], w.books[j]) && HeldByLatest(w, j);
    var latest := w.books[j].latest;
    assert latest < k || k < latest || latest == k;
  }

  lemma KeysStayUnique(events: seq<Event>, limits: Limits)
    ensures OneJobPerKey(Run(EMPTY, events, limits).jobs)
  {
    RunKeepsInv(events, limits);
  }

  /** What the steps of a worker may change in a job whose lease it does not own: the error text, and
      that only while nobody owns it. */
  lemma StrangersChangeNothing(w: World, worker: Worker, j: JobId, seconds: nat, error: string, backoff: nat)
    requires Shaped(w) && j < |w.jobs| && !Owns(w.jobs[j], worker)
    ensures AfterHeartbeat(w, worker, j, seconds) == w && AfterSucceed(w, worker, j) == w
    ensures var v := AfterFailure(w, worker, j, error, backoff);
            && v.jobs[j] == w.jobs[j].(lastError := v.jobs[j].lastError)
            && (w.jobs[j].leaseOwner.Some? && w.jobs[j].leaseOwner.value != worker ==> v == w)
            && v.books == w.books
            && (forall i :: 0 <= i < |w.jobs| && i != j ==> v.jobs[i] == w.jobs[i])
  {
    var v := AfterFailure(w, worker, j, error, backoff);
    assert v.jobs[j] == AfterFail(w.jobs[j], worker, w.now, error, backoff);
    assert v.books == w.books;
    if w.jobs[j].leaseOwner.Some? && w.jobs[j].leaseOwner.value != worker {
      assert v.jobs == w.jobs;
    }
  }

  lemma FinishedStepsStay(w: World, e: Event, limits: Limits, j: JobId)
    requires Inv(w) && j < |w.jobs| && Finished(w.jobs[j])
    ensures var v := Step(w, e, limits);
            && j < |v.jobs|
            && v.jobs[j] == w.jobs[j].(lastError := v.jobs[j].lastError)
            && v.books[j] == w.books[j]
  {
    hide Exclusive, OneJobPerKey, Candidate, Count, Backoff;
    assert Balanced(w.jobs[j], w.books[j]);
    hide Inv, Balanced;
  }

  /** Succeeded and dead-lettered jobs stay as they are, whatever happens next: only the error text
      of a late failure report can still change. */
  lemma {:induction false} FinishedIsAbsorbing(events: seq<Event>, later: seq<Event>, limits: Limits, j: JobId)
    requires j < |Run(EMPTY, events, limits).jobs| && Finished(Run(EMPTY, events, limits).jobs[j])
    ensures var w, v := Run(EMPTY, events, limits), Run(EMPTY, events + later, limits);
            && j < |v.jobs|
            && v.jobs[j] == w.jobs[j].(lastError := v.jobs[j].lastError)
            && v.books[j] == w.books[j]
  {
    hide Inv, Step, Run;
    if later == [] {
      assert events + later == events;
    } else {
      var n := |later| - 1;
      FinishedIsAbsorbing(events, later[..n], limits, j);
      RunKeepsInv(events + later[..n], limits);
      RunAppend(events + later[..n], later[n], limits);
      assert events + later[..n] + [later[n]] == events + later;
      FinishedStepsStay(Run(EMPTY, events + later[..n], limits), later[n], limits, j);
    }
  }

  lemma RunAppend(events: seq<Event>, e: Event, limits: Limits)
    ensures Run(EMPTY, events + [e], limits) == Step(Run(EMPTY, events, limits), e, limits)
  {
    hide Step;
    assert (events + [e])[..|events|] == events;
  }

  // ---------------------------------------------------------------- limits

  lemma {:induction false} CountUpdate(jobs: seq<Job>, j: JobId, job: Job, now: int, adapter: Option<string>)
    requires j < |jobs|
    ensures Count(jobs[j := job], now, adapter) + (if Unexpired(jobs[j], now) && Matches(jobs[j], adapter) then 1 else 0)
         == Count(jobs, now, adapter) + (if Unexpired(job, now) && Matches(job, adapter) then 1 else 0)
  {
    hide Unexpired, Matches;
    var n := |jobs| - 1;
    if j == n {
      assert jobs[j := job][..n] == jobs[..n];
    } else {
      CountUpdate(jobs[..n], j, job, now, adapter);
      assert jobs[j := job][..n] == jobs[..n][j := job];
    }
  }

  /** Fewer jobs count when time passes or when jobs stop counting. */
  lemma {:induction false} CountFalls(jobs: seq<Job>, kept: seq<Job>, now: int, later: int, adapter: Option<string>)
    requires |kept| == |jobs|
    requires forall k :: 0 <= k < |jobs| ==>
      (Unexpired(kept[k], later) ==> Unexpired(jobs[k], now)) && kept[k].adapter == jobs[k].adapter
    ensures Count(kept, later, adapter) <= Count(jobs, now, adapter)
  {
    hide Unexpired;
    if jobs != [] {
      var n := |jobs| - 1;
      forall k | 0 <= k < n ensures
        (Unexpired(kept[..n][k], later) ==> Unexpired(jobs[..n][k], now)) && kept[..n][k].adapter == jobs[..n][k].adapter
      {
        assert kept[..n][k] == kept[k] && jobs[..n][k] == jobs[k];
      }
      CountFalls(jobs[..n], kept[..n], now, later, adapter);
      assert (Unexpired(kept[n], later) ==> Unexpired(jobs[n], now)) && kept[n].adapter == jobs[n].adapter;
    }
  }

  ghost predicate WithinLimits(w: World, limits: Limits) {
    && Count(w.jobs, w.now, None) <= limits.global
    && forall adapter: string :: Count(w.jobs, w.now, Some(adapter)) <= limits.perAdapter
  }

  lemma WithinAfterUpdate(w: World, limits: Limits, j: JobId, job: Job, book: Ledger)
    requires Shaped(w) && j < |w.jobs| && WithinLimits(w, limits)
    requires job.adapter == w.jobs[j].adapter
    ensures (Unexpired(job, w.now) ==> Unexpired(w.jobs[j], w.now) || Room(w.jobs, w.now, job.adapter, limits))
            <==> WithinLimits(Put(w, j, job, book), limits)
  {
    hide Unexpired, Count;
    CountUpdate(w.jobs, j, job, w.now, None);
    CountUpdate(w.jobs, j, job, w.now, Some(job.adapter));
    forall adapter: string | adapter != job.adapter
      ensures Count(w.jobs[j := job], w.now, Some(adapter)) == Count(w.jobs, w.now, Some(adapter))
    {
      CountUpdate(w.jobs, j, job, w.now, Some(adapter));
    }
  }

  /** A heartbeat keeps the limits exactly when the lease had not run out, or was renewed for no time,
      or there is room for one more; the code does not look at the expiry. */
  lemma HeartbeatKeepsLimitsIff(w: World, limits: Limits, worker: Worker, j: JobId, seconds: nat)
    requires Shaped(w) && j < |w.jobs| && Owns(w.jobs[j], worker) && WithinLimits(w, limits)
    ensures WithinLimits(AfterHeartbeat(w, worker, j, seconds), limits)
       <==> Unexpired(w.jobs[j], w.now) || seconds == 0 || Room(w.jobs, w.now, w.jobs[j].adapter, limits)
  {
    var job := w.jobs[j].(leaseExpiresAt := Some(w.now + seconds));
    WithinAfterUpdate(w, limits, j, job, w.books[j]);
    assert Unexpired(job, w.now) <==> seconds > 0;
  }

  /** A claim made after its read keeps the limits exactly when the lease it writes, counted from the
      time of the read, is over already, or there is still room. */
  lemma ClaimKeepsLimitsIff(w: World, limits: Limits, worker: Worker, seconds: nat)
    requires Shaped(w) && CanClaim(w, worker) && WithinLimits(w, limits)
    ensures WithinLimits(AfterClaim(w, worker, seconds), limits)
       <==> w.candidates[worker].readAt + seconds <= w.now
            || Room(w.jobs, w.now, w.jobs[w.candidates[worker].job].adapter, limits)
  {
    hide Count;
    var r := w.candidates[worker];
    var job := Claimed(w.jobs[r.job], worker, r.readAt + seconds);
    var v := w.(candidates := w.candidates - {worker},
                handed := w.handed + [Grant(worker, r.job, w.jobs[r.job].attempts + 1)]);
    WithinAfterUpdate(v, limits, r.job, job, v.books[r.job].(grants := v.books[r.job].grants + 1, latest := |w.handed|));
    assert WithinLimits(v, limits);
  }

  /** Leases are atomic, and no heartbeat lands after its lease ran out. */
  predicate Punctual(w: World, e: Event) {
    && !e.Claim?
    && (e.Heartbeat? && e.job < |w.jobs| && Owns(w.jobs[e.job], e.worker) ==> Unexpired(w.jobs[e.job], w.now))
  }

  predicate PunctualRun(events: seq<Event>, limits: Limits) {
    events == []
    || (PunctualRun(events[..|events| - 1], limits)
        && Punctual(Run(EMPTY, events[..|events| - 1], limits), events[|events| - 1]))
  }

  lemma EnqueueKeepsLimits(w: World, limits: Limits, key: string, adapter: string, maxAttempts: int)
    requires WithinLimits(w, limits)
    ensures WithinLimits(Enqueued(w, key, adapter, maxAttempts), limits)
  {
    var v := Enqueued(w, key, adapter, maxAttempts);
    if v != w {
      assert v.jobs[..|w.jobs|] == w.jobs;
      forall a: Option<string> ensures Count(v.jobs, w.now, a) == Count(w.jobs, w.now, a) {
      }
    }
  }

  lemma LeaseKeepsLimits(w: World, limits: Limits, worker: Worker, adapter: string, seconds: nat)
    requires Shaped(w) && WithinLimits(w, limits)
    ensures WithinLimits(AfterClaim(AfterRead(w, worker, adapter, limits), worker, seconds), limits)
  {
    var v := AfterRead(w, worker, adapter, limits);
    assert WithinLimits(v, limits);
    if CanClaim(v, worker) {
      ClaimKeepsLimitsIff(v, limits, worker, seconds);
    }
  }

  /** Steps that only end leases, and time itself, lower the counts. */
  lemma QuietStepKeepsLimits(w: World, v: World, limits: Limits)
    requires WithinLimits(w, limits)
    requires |v.jobs| == |w.jobs| && w.now <= v.now
    requires forall k :: 0 <= k < |w.jobs| ==>
      (Unexpired(v.jobs[k], v.now) ==> Unexpired(w.jobs[k], w.now)) && v.jobs[k].adapter == w.jobs[k].adapter
    ensures WithinLimits(v, limits)
  {
    hide Unexpired, Count;
    CountFalls(w.jobs, v.jobs, w.now, v.now, None);
    forall adapter: string ensures Count(v.jobs, v.now, Some(adapter)) <= limits.perAdapter {
      CountFalls(w.jobs, v.jobs, w.now, v.now, Some(adapter));
    }
  }

  lemma PunctualStepKeepsLimits(w: World, e: Event, limits: Limits)
    requires Shaped(w) && WithinLimits(w, limits) && Punctual(w, e)
    ensures WithinLimits(Step(w, e, limits), limits)
  {
    hide WithinLimits, Count, Candidate, AfterClaim, AfterRead, Enqueued;
    match e
    case Enqueue(key, adapter, maxAttempts) => EnqueueKeepsLimits(w, limits, key, adapter, maxAttempts);
    case Read(worker, adapter) =>
      ReadChangesNoJob(w, worker, adapter, limits);
      QuietStepKeepsLimits(w, AfterRead(w, worker, adapter, limits), limits);
    case Lease(worker, adapter, seconds) => LeaseKeepsLimits(w, limits, worker, adapter, seconds);
    case Heartbeat(worker, j, seconds) =>
      if j < |w.jobs| && Owns(w.jobs[j], worker) {
        HeartbeatKeepsLimitsIff(w, limits, worker, j, seconds);
      }
    case Succeed(worker, j) => QuietStepKeepsLimits(w, AfterSucceed(w, worker, j), limits);
    case Fail(worker, j, error, backoff) => QuietStepKeepsLimits(w, AfterFailure(w, worker, j, error, backoff), limits);
    case Recover => QuietStepKeepsLimits(w, AfterRecover(w), limits);
    case Tick(seconds) => QuietStepKeepsLimits(w, w.(now := w.now + seconds), limits);
  }

  lemma ReadChangesNoJob(w: World, worker: Worker, adapter: string, limits: Limits)
    ensures AfterRead(w, worker, adapter, limits).jobs == w.jobs && AfterRead(w, worker, adapter, limits).now == w.now
  {
  }

  /** With atomic leases and heartbeats that land before the expiry, the jobs running under an
      unexpired lease never exceed the global limit, nor on any adapter the per-adapter limit. */
  lemma {:induction false} PunctualRunsKeepLimits(events: seq<Event>, limits: Limits)
    requires PunctualRun(events, limits)
    ensures WithinLimits(Run(EMPTY, events, limits), limits)
  {
    hide WithinLimits, Step, Punctual;
    if events == [] {
      EmptyIsWithinLimits(limits);
    } else {
      PunctualRunsKeepLimits(events[..|events| - 1], limits);
      PunctualStepKeepsLimits(Run(EMPTY, events[..|events| - 1], limits), events[|events| - 1], limits);
    }
  }

  lemma EmptyIsWithinLimits(limits: Limits)
    ensures WithinLimits(EMPTY, limits)
  {
  }

  const ONE := Limits(1, 1)

  function Fresh(key: string): Job {
    Job(key, "x", Pending, 0, 5, 0, None, None, "")
  }

  /** Two jobs are queued and one worker leases the first for ten seconds. */
  function FirstLease(): seq<Event> {
    [Enqueue("a", "x", 5), Enqueue("b", "x", 5), Lease("w", "x", 10)]
  }

  function Ones(j: Job, now: int): nat {
    if Unexpired(j, now) then 1 else 0
  }

  lemma CountOfTwo(a: Job, b: Job, now: int, adapter: Option<string>)
    requires Matches(a, adapter) && Matches(b, adapter)
    ensures Count([a, b], now, adapter) == Ones(a, now) + Ones(b, now)
  {
    assert [a, b][..1] == [a] && [a][..0] == [];
    assert Count([a], now, adapter) == Ones(a, now);
  }

  lemma CandidateOfTwo(a: Job, b: Job, now: int)
    requires Runnable(b, "x", now) && (Runnable(a, "x", now) ==> a.availableAt <= b.availableAt)
    ensures Candidate([a, b], "x", now) == Some(if Runnable(a, "x", now) then 0 else 1)
  {
    assert [a, b][..1] == [a] && [a][..0] == [];
    assert Candidate([a], "x", now) == if Runnable(a, "x", now) then Some(0) else None;
  }

  lemma NewKeyQueues(w: World, key: string)
    requires Shaped(w) && w.now == 0 && forall k :: 0 <= k < |w.jobs| ==> w.jobs[k].key != key
    ensures var v := Step(w, Enqueue(key, "x", 5), ONE); Shaped(v) && v.jobs == w.jobs + [Fresh(key)] && v.now == 0
  {
    assert Keyed(w.jobs, key) == None;
  }

  lemma TwoQueued()
    ensures var w := Run(EMPTY, FirstLease()[..2], ONE); w.jobs == [Fresh("a"), Fresh("b")] && w.now == 0
  {
    hide Keyed, Step;
    var a, b := Enqueue("a", "x", 5), Enqueue("b", "x", 5);
    RunAppend([], a, ONE);
    RunAppend([a], b, ONE);
    assert [] + [a] == [a] && [a] + [b] == FirstLease()[..2];
    NewKeyQueues(EMPTY, "a");
    NewKeyQueues(Run(EMPTY, [a], ONE), "b");
  }

  lemma LeaseTheFirst(w: World)
    requires Shaped(w) && w.jobs == [Fresh("a"), Fresh("b")] && w.now == 0
    ensures var v := Step(w, Lease("w", "x", 10), ONE);
            v.jobs == [Claimed(Fresh("a"), "w", 10), Fresh("b")] && v.now == 0
  {
    hide Candidate, Count;
    CandidateOfTwo(w.jobs[0], w.jobs[1], 0);
    CountOfTwo(w.jobs[0], w.jobs[1], 0, None);
    CountOfTwo(w.jobs[0], w.jobs[1], 0, Some("x"));
  }

  lemma LeaseTheSecond(w: World)
    requires Shaped(w) && w.jobs == [Claimed(Fresh("a"), "w", 10), Fresh("b")] && w.now == 11
    ensures var v := Step(w, Lease("v", "x", 10), ONE);
            v.jobs == [Claimed(Fresh("a"), "w", 10), Claimed(Fresh("b"), "v", 21)] && v.now == 11
  {
    hide Candidate, Count;
    CandidateOfTwo(w.jobs[0], w.jobs[1], 11);
    CountOfTwo(w.jobs[0], w.jobs[1], 11, None);
    CountOfTwo(w.jobs[0], w.jobs[1], 11, Some("x"));
  }

  lemma HeartbeatTooLate(w: World)
    requires Shaped(w) && w.now == 11
    requires w.jobs == [Claimed(Fresh("a"), "w", 10), Claimed(Fresh("b"), "v", 21)]
    ensures !WithinLimits(Step(w, Heartbeat("w", 0, 10), ONE), ONE)
  {
    var late := AfterHeartbeat(w, "w", 0, 10);
    assert late.jobs == [w.jobs[0].(leaseExpiresAt := Some(21)), w.jobs[1]];
    CountOfTwo(late.jobs[0], late.jobs[1], 11, None);
  }

  /** One late heartbeat is enough to have two jobs running where the limit is one. */
  lemma LateHeartbeatOverruns()
    ensures !WithinLimits(Run(EMPTY, FirstLease() + [Tick(11)] + [Lease("v", "x", 10)] + [Heartbeat("w", 0, 10)], ONE), ONE)
  {
    hide Run, AfterHeartbeat, AfterClaim, AfterRead, WithinLimits, Claimed;
    var queued, leased := FirstLease()[..2], FirstLease();
    var late := leased + [Tick(11)];
    var second := late + [Lease("v", "x", 10)];
    TwoQueued();
    LeaseTheFirst(Run(EMPTY, queued, ONE));
    RunAppend(queued, Lease("w", "x", 10), ONE);
    assert queued + [Lease("w", "x", 10)] == leased;
    RunAppend(leased, Tick(11), ONE);
    LeaseTheSecond(Run(EMPTY, late, ONE));
    RunAppend(late, Lease("v", "x", 10), ONE);
    HeartbeatTooLate(Run(EMPTY, second, ONE));
    RunAppend(second, Heartbeat("w", 0, 10), ONE);
  }

  // ---------------------------------------------------------------- backoff

  lemma {:induction false} Pow2Grows(m: nat, n: nat)
    requires m <= n
    ensures 1 <= Pow2(m) <= Pow2(n)
  {
    if n > 0 {
      if m == n {
        Pow2Grows(m - 1, n - 1);
      } else {
        Pow2Grows(m, n - 1);
      }
    }
  }

  /** The wait starts at the base, never shrinks with further attempts, and stops at 1024 times the base. */
  lemma BackoffGrowsToItsCap(a: nat, b: nat, base: nat)
    requires 1 <= a <= b
    ensures base <= Backoff(a, base) <= Backoff(b, base) <= 1024 * base
    ensures a >= 11 ==> Backoff(a, base) == 1024 * base
  {
    var m, n := if a > 11 then 10 else a - 1, if b > 11 then 10 else b - 1;
    CapIs1024();
    Pow2Grows(0, m);
    Pow2Grows(m, n);
    Pow2Grows(n, 10);
    hide Pow2;
    Scaled(1, Pow2(m), base);
    Scaled(Pow2(m), Pow2(n), base);
    Scaled(Pow2(n), 1024, base);
  }

  /** Up to the cap every further attempt doubles the wait. */
  lemma BackoffDoubles(a: nat, base: nat)
    requires 1 <= a <= 10
    ensures Backoff(a + 1, base) == 2 * Backoff(a, base)
  {
    assert Pow2(a) == 2 * Pow2(a - 1);
    hide Pow2;
    assert 2 * Pow2(a - 1) * base == 2 * (Pow2(a - 1) * base);
  }

  lemma CapIs1024()
    ensures Pow2(0) == 1 && Pow2(10) == 1024
  {
    assert Pow2(4) == 16 && Pow2(6) == 4 * Pow2(4) && Pow2(8) == 4 * Pow2(6);
  }

  lemma Scaled(a: nat, b: nat, base: nat)
    requires a <= b
    ensures a * base <= b * base
  {
  }

  // ---------------------------------------------------------------- retries wait

  /** Reads and claims of a lease without a gap, as the one transaction makes them. */
  predicate AtomicLeases(events: seq<Event>) {
    forall k :: 0 <= k < |events| ==> !events[k].Read? && !events[k].Claim?
  }

  /** A failure of the owner with attempts left makes the job wait: twice as long each time, up to 1024 times the
      base. */
  lemma FailedJobWaits(w: World, worker: Worker, j: JobId, error: string, backoff: nat, limits: Limits)
    requires Inv(w) && j < |w.jobs| && Owns(w.jobs[j], worker) && w.jobs[j].attempts < w.jobs[j].maxAttempts
    ensures Shaped(w)
    ensures var job := Step(w, Fail(worker, j, error, backoff), limits).jobs[j];
            && Waiting(job) && job.attempts == w.jobs[j].attempts >= 1 && job.lastError == error
            && job.leaseOwner.None? && job.leaseExpiresAt.None?
            && job.availableAt == w.now + Pow2(if job.attempts <= 11 then job.attempts - 1 else 10) * backoff
  {
    assert Balanced(w.jobs[j], w.books[j]);
    hide Pow2;
  }

  /** How a waiting job can change in one step. */
  lemma WaitingStep(w: World, e: Event, limits: Limits, j: JobId)
    requires Shaped(w) && j < |w.jobs| && Waiting(w.jobs[j]) && w.jobs[j].leaseOwner.None?
    requires !e.Read? && !e.Claim?
    ensures var v := Step(w, e, limits);
            && j < |v.jobs| && v.now >= w.now
            && (if v.jobs[j].attempts == w.jobs[j].attempts then
                  Waiting(v.jobs[j]) && v.jobs[j].leaseOwner.None? && v.jobs[j].availableAt == w.jobs[j].availableAt
                else e.Lease? && w.jobs[j].availableAt <= w.now && v.jobs[j].attempts == w.jobs[j].attempts + 1)
  {
    hide Count, Backoff;
  }

  /** A waiting job is handed out to nobody before it is available, whatever else happens in the queue. */
  lemma {:induction false} RetriesWait(w: World, events: seq<Event>, limits: Limits, j: JobId)
    requires Shaped(w) && j < |w.jobs| && Waiting(w.jobs[j]) && w.jobs[j].leaseOwner.None? && AtomicLeases(events)
    ensures var v := Run(w, events, limits);
            && j < |v.jobs| && v.now >= w.now
            && (v.jobs[j].attempts == w.jobs[j].attempts && v.now < w.jobs[j].availableAt ==>
                  Waiting(v.jobs[j]) && v.jobs[j].leaseOwner.None? && v.jobs[j].availableAt == w.jobs[j].availableAt)
            && (v.jobs[j].attempts != w.jobs[j].attempts ==> w.jobs[j].availableAt <= v.now)
  {
    hide Step, Waiting;
    if events != [] {
      var n := |events| - 1;
      RetriesWait(w, events[..n], limits, j);
      var v := Run(w, events[..n], limits);
      if v.jobs[j].attempts == w.jobs[j].attempts && v.now < w.jobs[j].availableAt {
        WaitingStep(v, events[n], limits, j);
      } else {
        TimeOnlyPasses(v, events[n], limits);
      }
    }
  }

  lemma TimeOnlyPasses(w: World, e: Event, limits: Limits)
    requires Shaped(w)
    ensures Step(w, e, limits).now >= w.now && |Step(w, e, limits).jobs| >= |w.jobs|
  {
    hide Candidate, Count, Keyed;
  }
}
