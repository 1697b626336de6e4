/** The durable queue as the object the worker and the API use (src/mnema/jobs/queue.py). Every
    method takes the time its transaction runs at. */
module DurableQueues {
  import opened Basics
  import opened Queue

  /** A waiting job of the adapter whose time has come. */
  predicate CanBeLeased(j: Job, adapter: string, now: int) {
    j.adapter == adapter && (j.status.Pending? || j.status.Retry?) && j.availableAt <= now
  }

  lemma RunnableCanBeLeased(jobs: seq<Job>, adapter: string, now: int)
    ensures forall j :: 0 <= j < |jobs| ==> (Runnable(jobs[j], adapter, now) <==> CanBeLeased(jobs[j], adapter, now))
  {
  }

  /** The job became available first, and of those the one queued first; it is now running for the worker
      until the lease ends, in one more attempt. Nothing else about it and no other job has changed. */
  predicate Leased(before: seq<Job>, after: seq<Job>, j: JobId, worker: Worker, adapter: string, now: int, seconds: nat)
    requires j < |before|
  {
    && CanBeLeased(before[j], adapter, now)
    && (forall k :: 0 <= k < |before| && k != j && CanBeLeased(before[k], adapter, now) ==>
          before[j].availableAt < before[k].availableAt || (before[j].availableAt == before[k].availableAt && j < k))
    && after == before[j := before[j].(status := Running, attempts := before[j].attempts + 1, leaseOwner := Some(worker),
                                       leaseExpiresAt := Some(now + seconds))]
  }

  /** The same jobs but for one. */
  predicate OnlyChanges(before: seq<Job>, after: seq<Job>, j: JobId)
    requires j < |before|
  {
    |after| == |before| && after == before[j := after[j]]
  }

  class DurableQueue {
    var jobs: seq<Job>
    ghost var books: seq<Ledger>
    ghost var handed: seq<Grant>
    ghost var candidates: map<Worker, CandidateRead>

    constructor ()
      ensures At(0) == EMPTY
    {
      jobs := [];
      books, handed, candidates := [], [], map[];
    }

    ghost function At(now: int): World reads this {
      World(jobs, books, handed, candidates, now)
    }

    /** A known key gives back the job it already has, whatever else is asked for. */
    method Enqueue(now: int, key: string, adapter: string, maxAttempts: int) returns (job: JobId)
      requires Inv(At(now))
      modifies this
      ensures At(now) == Enqueued(old(At(now)), key, adapter, maxAttempts) && Inv(At(now))
      ensures job < |jobs| && jobs[job].key == key
      ensures job < old(|jobs|) <==> exists k :: 0 <= k < old(|jobs|) && old(jobs)[k].key == key
      ensures job < old(|jobs|) ==> jobs == old(jobs)
      ensures job >= old(|jobs|) ==>
                && jobs == old(jobs) + [jobs[job]] && jobs[job].adapter == adapter && jobs[job].status.Pending?
                && jobs[job].attempts == 0 && jobs[job].maxAttempts == maxAttempts && jobs[job].availableAt == now
                && jobs[job].leaseOwner.None? && jobs[job].leaseExpiresAt.None? && jobs[job].lastError == ""
    {
      EnqueueKeepsInv(At(now), key, adapter, maxAttempts);
      hide Inv;
      var known := Keyed(jobs, key);
      if known.Some? {
        return known.value;
      }
      job := |jobs|;
      jobs := jobs + [Job(key, adapter, Pending, 0, maxAttempts, now, None, None, "")];
      books := books + [Ledger(0, 0, 0, 0, 0)];
    }

    /** The unexpired running jobs, and how many of them are on the adapter. */
    method RunningJobs(now: int, adapter: string) returns (all: nat, onAdapter: nat)
      ensures all == Count(jobs, now, None) && onAdapter == Count(jobs, now, Some(adapter))
      ensures all == |RunningNow(jobs, now, None)| && onAdapter == |RunningNow(jobs, now, Some(adapter))|
    {
      all, onAdapter := 0, 0;
      for k := 0 to |jobs|
        invariant all == Count(jobs[..k], now, None)
        invariant onAdapter == Count(jobs[..k], now, Some(adapter))
      {
        assert jobs[..k + 1][..k] == jobs[..k];
        if Unexpired(jobs[k], now) {
          all := all + 1;
          if jobs[k].adapter == adapter {
            onAdapter := onAdapter + 1;
          }
        }
      }
      assert jobs[..|jobs|] == jobs;
      CountIsSize(jobs, now, None);
      CountIsSize(jobs, now, Some(adapter));
    }

    /** The reads of a lease: nothing when a limit is reached, otherwise the earliest available job. */
    method FindCandidate(now: int, worker: Worker, adapter: string, limits: Limits)
      returns (candidate: Option<JobId>)
      requires Inv(At(now))
      modifies this`candidates
      ensures At(now) == AfterRead(old(At(now)), worker, adapter, limits) && Inv(At(now))
      ensures candidate == if Room(jobs, now, adapter, limits) then Candidate(jobs, adapter, now) else None
      ensures candidate.Some? <==> worker in candidates
      ensures candidate.Some? ==> candidates[worker] == CandidateRead(candidate.value, now)
    {
      IdleKeepsInv(At(now), AfterRead(At(now), worker, adapter, limits).candidates, now);
      hide Inv, Count, Candidate;
      candidates := candidates - {worker};
      var all, onAdapter := RunningJobs(now, adapter);
      if all >= limits.global {
        return None;
      }
      if onAdapter >= limits.perAdapter {
        return None;
      }
      candidate := Candidate(jobs, adapter, now);
      if candidate.Some? {
        candidates := candidates[worker := CandidateRead(candidate.value, now)];
      }
    }

    /** The conditional update: one row when the job was still waiting, none when it was taken since. */
    method Claim(now: int, worker: Worker, c: JobId, readAt: int, seconds: nat) returns (rows: nat)
      requires Inv(At(now)) && c < |jobs|
      requires worker in candidates && candidates[worker] == CandidateRead(c, readAt)
      modifies this
      ensures At(now) == AfterClaim(old(At(now)), worker, seconds) && Inv(At(now))
      ensures rows == if old(jobs[c].status.Pending? || jobs[c].status.Retry?) then 1 else 0
      ensures handed == old(handed) + if rows == 0 then [] else [Grant(worker, c, old(jobs)[c].attempts + 1)]
      ensures jobs == if rows == 0 then old(jobs)
                      else old(jobs)[c := old(jobs)[c].(status := Running, attempts := old(jobs)[c].attempts + 1,
                                                        leaseOwner := Some(worker), leaseExpiresAt := Some(readAt + seconds))]
    {
      ClaimKeepsInv(At(now), worker, seconds);
      InvIsShaped(At(now));
      hide Inv;
      candidates := candidates - {worker};
      if !Waiting(jobs[c]) {
        return 0;
      }
      handed := handed + [Grant(worker, c, jobs[c].attempts + 1)];
      books := books[c := books[c].(grants := books[c].grants + 1, latest := |handed| - 1)];
      jobs := jobs[c := Claimed(jobs[c], worker, readAt + seconds)];
      rows := 1;
    }

    /** Both in one transaction; the worker gets the job and the number of the attempt it may make. */
    method Lease(now: int, worker: Worker, adapter: string, seconds: nat, limits: Limits)
      returns (grant: Option<Grant>)
      requires Inv(At(now))
      modifies this
      ensures At(now) == AfterClaim(AfterRead(old(At(now)), worker, adapter, limits), worker, seconds)
      ensures Inv(At(now))
      ensures grant.Some? <==> old(Room(jobs, now, adapter, limits) && Candidate(jobs, adapter, now).Some?)
      ensures grant.Some? ==>
                && old(Candidate(jobs, adapter, now)) == Some(grant.value.job)
                && handed == old(handed) + [grant.value] && grant.value.worker == worker
                && grant.value.job < |jobs| && Owns(jobs[grant.value.job], worker)
                && grant.value.attempt == jobs[grant.value.job].attempts
      ensures grant.None? ==> jobs == old(jobs) && handed == old(handed)
      ensures grant.None? <==>
                || |old(RunningNow(jobs, now, None))| >= limits.global
                || |old(RunningNow(jobs, now, Some(adapter)))| >= limits.perAdapter
                || forall j :: 0 <= j < |old(jobs)| ==> !old(CanBeLeased(jobs[j], adapter, now))
      ensures grant.Some? ==> Leased(old(jobs), jobs, grant.value.job, worker, adapter, now, seconds)
    {
      InvIsShaped(At(now));
      CountIsSize(jobs, now, None);
      CountIsSize(jobs, now, Some(adapter));
      RunnableCanBeLeased(jobs, adapter, now);
      hide Inv, Candidate, Count, Runnable, CanBeLeased, AfterClaim, AfterRead, RunningNow;
      var candidate := FindCandidate(now, worker, adapter, limits);
      if candidate.None? {
        return None;
      }
      var rows := Claim(now, worker, candidate.value, now, seconds);
      if rows != 1 {
        return None;
      }
      grant := Some(Grant(worker, candidate.value, jobs[candidate.value].attempts));
    }

    /** Renews the lease of its owner without looking at the expiry; anyone else is an error. */
    method Heartbeat(now: int, worker: Worker, j: JobId, seconds: nat) returns (owner: bool)
      requires j < |jobs| && Inv(At(now))
      modifies this`jobs
      ensures At(now) == AfterHeartbeat(old(At(now)), worker, j, seconds) && Inv(At(now))
      ensures owner <==> old(jobs[j].status.Running? && jobs[j].leaseOwner == Some(worker))
      ensures jobs == if owner then old(jobs)[j := old(jobs)[j].(leaseExpiresAt := Some(now + seconds))] else old(jobs)
    {
      OwnerStepKeepsInv(At(now), worker, j, seconds);
      InvIsShaped(At(now));
      hide Inv;
      if !jobs[j].status.Running? || jobs[j].leaseOwner != Some(worker) {
        return false;
      }
      jobs := jobs[j := jobs[j].(leaseExpiresAt := Some(now + seconds))];
      owner := true;
    }

    method Succeed(now: int, worker: Worker, j: JobId) returns (done: bool)
      requires j < |jobs| && Inv(At(now))
      modifies this
      ensures At(now) == AfterSucceed(old(At(now)), worker, j) && Inv(At(now))
      ensures done <==> old(jobs[j].status.Running? && jobs[j].leaseOwner == Some(worker))
      ensures !done ==> jobs == old(jobs)
      ensures done ==> jobs == old(jobs)[j := old(jobs)[j].(status := Succeeded, leaseOwner := None, leaseExpiresAt := None)]
    {
      OwnerStepKeepsInv(At(now), worker, j, 0);
      InvIsShaped(At(now));
      hide Inv;
      if !Owns(jobs[j], worker) {
        return false;
      }
      jobs := jobs[j := jobs[j].(status := Succeeded)];
      jobs := jobs[j := jobs[j].(leaseOwner := None)];
      jobs := jobs[j := jobs[j].(leaseExpiresAt := None)];
      books := books[j := books[j].(successes := books[j].successes + 1)];
      done := true;
    }

    /** Records the error and schedules the retry or dead-letters the job; a worker that lost the
        lease to another changes nothing at all. */
    method Fail(now: int, worker: Worker, j: JobId, error: string, backoff: nat) returns (recorded: bool)
      requires j < |jobs| && Inv(At(now))
      modifies this
      ensures At(now) == AfterFailure(old(At(now)), worker, j, error, backoff) && Inv(At(now))
      ensures recorded <==> old(jobs[j].status.Running? && jobs[j].leaseOwner == Some(worker))
      ensures OnlyChanges(old(jobs), jobs, j)
      ensures jobs[j].attempts == old(jobs)[j].attempts && jobs[j].maxAttempts == old(jobs)[j].maxAttempts
      ensures !recorded ==> jobs[j] == old(jobs)[j].(lastError := if old(jobs)[j].leaseOwner.None?
                                                                     || old(jobs)[j].leaseOwner == Some(worker)
                                                                  then error else old(jobs)[j].lastError)
      ensures recorded ==> jobs[j].lastError == error && jobs[j].leaseOwner.None? && jobs[j].leaseExpiresAt.None?
      ensures recorded && jobs[j].attempts >= jobs[j].maxAttempts ==>
                jobs[j].status.ManualReview? && jobs[j].availableAt == old(jobs)[j].availableAt
      ensures recorded && jobs[j].attempts < jobs[j].maxAttempts ==>
                && jobs[j].status.Retry?
                && jobs[j].availableAt == now + Pow2(if jobs[j].attempts <= 11 then jobs[j].attempts - 1 else 10) * backoff
    {
      ghost var start := At(now);
      FailureKeepsInv(start, worker, j, error, backoff);
      InvIsShaped(start);
      hide Inv, Backoff;
      if jobs[j].leaseOwner.Some? && jobs[j].leaseOwner.value != worker {
        assert AfterFailure(start, worker, j, error, backoff).jobs == jobs;
        return false;
      }
      jobs := jobs[j := jobs[j].(lastError := error)];
      if !Owns(jobs[j], worker) {
        return false;
      }
      books := books[j := books[j].(failures := books[j].failures + 1)];
      jobs := jobs[j := jobs[j].(leaseOwner := None, leaseExpiresAt := None)];
      if jobs[j].attempts >= jobs[j].maxAttempts {
        jobs := jobs[j := jobs[j].(status := ManualReview)];
      } else {
        jobs := jobs[j := jobs[j].(status := Retry)];
        jobs := jobs[j := jobs[j].(availableAt := now + Backoff(jobs[j].attempts, backoff))];
      }
      recorded := true;
    }

    /** Puts every expired running job back to retry, attempts left or not. */
    method RecoverExpired(now: int) returns (count: nat)
      requires Inv(At(now))
      modifies this
      ensures At(now) == AfterRecover(old(At(now))) && Inv(At(now))
      ensures forall j :: 0 <= j < |jobs| ==> !Expired(jobs[j], now)
      ensures count == |set j | 0 <= j < |jobs| && old(Expired(jobs[j], now))|
      ensures |jobs| == old(|jobs|)
      ensures forall j :: 0 <= j < |jobs| ==>
                jobs[j] == if old(jobs)[j].status.Running? && old(jobs)[j].leaseExpiresAt.Some?
                              && old(jobs)[j].leaseExpiresAt.value < now
                           then old(jobs)[j].(status := Retry, leaseOwner := None, leaseExpiresAt := None, availableAt := now,
                                              lastError := "lease expired; recovered after interruption")
                           else old(jobs)[j]
    {
      ghost var start := At(now);
      RecoverKeepsInv(start);
      InvIsShaped(start);
      hide Inv, Recovered;
      var expired := set j | 0 <= j < |jobs| && Expired(jobs[j], now);
      count := |expired|;
      books := AfterRecover(start).books;
      jobs := AllRecovered(jobs, now);
      forall j | 0 <= j < |jobs| ensures !Expired(jobs[j], now) {
        RecoveredIsNotExpired(start.jobs[j], now);
      }
    }
  }

  lemma RecoveredIsNotExpired(j: Job, now: int)
    ensures !Expired(Recovered(j, now), now)
  {
  }
}
