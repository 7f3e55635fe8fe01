/** Properties of several operations run one after another: two workers
    claiming at the same instant, a late handler outcome after the lease
    ran out, a handler that throws null, the single redrive of a dead letter,
    the accepted task type without a handler, and a burst against one
    bucket. */
module Scenarios {
  import opened Types
  import opened Store
  import opened Processor
  import opened Coordinator
  import Helpers
  import Jobs
  import RateLimit

  /** Two claims at the same instant (the second worker runs after the
      first committed) never return the same job, and the second finds
      nothing when the first did. */
  method ClaimRace(db: Db, worker1: string, worker2: string, leaseMs: int, now: int)
    returns (first: Option<Job>, second: Option<Job>)
    requires db.Valid()
    modifies db`jobs
    ensures db.Valid()
    ensures first.Some? && second.Some? ==> first.value.id != second.value.id
    ensures first.None? ==> second.None?
  {
    first := ClaimNextJob(db, worker1, leaseMs, now);
    second := ClaimNextJob(db, worker2, leaseMs, now);
    if first.Some? && second.Some? {
      assert !ClaimEligible(Claimed(first.value, worker1, now + leaseMs, now), now);
    }
  }

  /** A job that has been redriven once is never redrivable again, in any
      later state of the table: redrive counts only grow. */
  lemma RedrivenAtMostOnce(before: map<JobId, Job>, after: map<JobId, Job>, id: JobId)
    requires Evolves(before, after) && id in before
    requires Redrives(before[id]) >= 1
    ensures id in after && !Redrivable(after[id])
  {
  }

  /** The redrive pass leaves every job it moved with its one redrive used,
      so the next redrive pass cannot select it. */
  lemma RedrivePassIsFinal(jobs: map<JobId, Job>, chosen: set<JobId>, id: JobId)
    requires chosen <= RedrivableIds(jobs) && id in chosen
    ensures id !in RedrivableIds(RedrivePass(jobs, chosen))
  {
    assert Redrivable(jobs[id]);
  }

  /** A "faliureTest" job is accepted, claimed at once (on an otherwise
      empty table) and dead-lettered by the worker without running. */
  method FailureTestDeadLetters(db: Db, ownerId: UserId, newId: JobId, now: int, workerId: string,
                                parse: string -> Option<Value>, outcome: HandlerOutcome, jitter: Jitter)
    returns (invoked: Option<HandlerRequest>)
    requires db.Valid() && db.jobs == map[]
    modifies db
    ensures invoked.None?
    ensures newId in db.jobs && db.jobs[newId].status == Dlq
    ensures db.jobs[newId].error == Some(HandlerMissingMessage) && db.jobs[newId].retries == 1
  {
    Helpers.AcceptedWithoutHandler();
    var scheduled := Jobs.ScheduleJob(db, "faliureTest", ownerId, None, None, None, newId, now, true);
    assert newId in EligibleIds(db.jobs, now);
    var job := ClaimNextJob(db, workerId, DefaultLeaseMs, now);
    assert job.Some? && job.value.id == newId && job.value.taskType == "faliureTest";
    invoked := RunHandlerForJob(db, job.value, Helpers.HandlerNames, parse, outcome, workerId, jitter, now, now);
  }

  /** A fresh "sleep" job on an empty table is claimed by `workerId` and
      marked processing. */
  method StartFreshJob(db: Db, ownerId: UserId, newId: JobId, workerId: string, t0: int)
    returns (job: Option<Job>)
    requires db.Valid() && db.jobs == map[]
    modifies db
    ensures db.Valid() && db.jobs.Keys == {newId}
    ensures job.Some? && job.value.id == newId && job.value.leaseWorker == Some(workerId)
    ensures db.jobs[newId].status == Running && db.jobs[newId].leaseUntil == Some(t0 + DefaultLeaseMs)
  {
    var _ := Jobs.ScheduleJob(db, "sleep", ownerId, None, None, None, newId, t0, true);
    assert db.jobs.Keys == {newId} && db.jobs[newId].status == Pending;
    assert newId in EligibleIds(db.jobs, t0);
    job := ClaimNextJob(db, workerId, DefaultLeaseMs, t0);
    assert job.Some? && job.value.id == newId;
    ghost var claimed := db.jobs;
    MarkJobProcessing(db, newId, t0);
    ReplaceRow(claimed, newId, Processing(claimed[newId], t0));
  }

  /** Worker 1 claims a fresh job and marks it processing; its lease runs
      out, the coordinator reclaims the job and worker 2 claims it. */
  method LeaseRunsOut(db: Db, ownerId: UserId, newId: JobId, worker1: string, worker2: string, t0: int, t1: int)
    returns (first: Option<Job>, second: Option<Job>)
    requires db.Valid() && db.jobs == map[]
    requires t0 + DefaultLeaseMs <= t1
    modifies db
    ensures db.Valid() && db.jobs.Keys == {newId}
    ensures first.Some? && first.value.id == newId && first.value.leaseWorker == Some(worker1)
    ensures second.Some? && second.value.id == newId && second.value.leaseWorker == Some(worker2)
    ensures db.jobs[newId] == second.value && second.value.status == Running
  {
    first := StartFreshJob(db, ownerId, newId, worker1, t0);
    assert newId in ExpiredIds(db.jobs, t1);
    var _ := ReclaimExpiredLeases(db, t1);
    assert db.jobs.Keys == {newId} && db.jobs[newId].status == Pending;
    assert newId in EligibleIds(db.jobs, t1);
    second := ClaimNextJob(db, worker2, DefaultLeaseMs, t1);
  }

  /** The handler run is several writes, none guarded by status or lease.
      Worker 1's handler outlasts its lease, so the job is reclaimed and
      claimed by worker 2 (`LeaseRunsOut`). Worker 1's late outcome then
      clears worker 2's lease, and worker 2's own processing mark sets the
      row running again. The row ends running without a lease: the table is
      no longer valid, and no reclaim pass and no claim selects the row.
      Only worker 2's own outcome write can still settle it; if worker 2
      dies or its handler throws null, the row is lost. */
  method LateOutcomeStrandsReclaimedJob(db: Db, ownerId: UserId, newId: JobId, worker1: string, worker2: string,
                                        result: Value, jitter: Jitter, t0: int, t1: int, t2: int)
    returns (first: Option<Job>, second: Option<Job>)
    requires db.Valid() && db.jobs == map[]
    requires t0 + DefaultLeaseMs <= t1 <= t2
    modifies db
    ensures first.Some? && first.value.id == newId && first.value.leaseWorker == Some(worker1)
    ensures second.Some? && second.value.id == newId && second.value.leaseWorker == Some(worker2)
    ensures newId in db.jobs && db.jobs[newId].status == Running && db.jobs[newId].leaseUntil.None?
    ensures !db.Valid()
    ensures forall now :: newId !in ExpiredIds(db.jobs, now) && newId !in EligibleIds(db.jobs, now)
  {
    first, second := LeaseRunsOut(db, ownerId, newId, worker1, worker2, t0, t1);
    WriteOutcome(db, first.value, Returned(result), jitter, t2);
    assert db.jobs[newId].status == Done && db.jobs[newId].leaseUntil.None?;
    MarkJobProcessing(db, newId, t2);
    assert db.jobs[newId].status == Running && db.jobs[newId].leaseUntil.None?;
    assert !RowValid(newId, db.jobs[newId]);
  }

  /** A handler that throws `null` leaves its job running with the claim's
      lease and the retry count unchanged; once the lease has run out the
      reclaim pass makes it pending again, so it is retried without ever
      reaching max_retries. */
  lemma NullishThrowNeverExhausts(claimed: Job, jitter: Jitter, startNow: int, endNow: int, later: int)
    requires claimed.status == Running && LeaseConsistent(claimed)
    requires claimed.leaseUntil.value <= later
    ensures var settled := Settled(Processing(claimed, startNow), claimed.retries, ThrewNullish, jitter, endNow);
            && LeaseExpired(settled, later)
            && Reclaimed(settled).status == Pending
            && Reclaimed(settled).retries == claimed.retries
            && ClaimEligible(Reclaimed(settled), later)
  {
  }

  /** A bucket of two tokens over one second admits two requests in the
      same millisecond and rejects the third, asking the client to come back
      in one second. */
  method BurstAgainstOneBucket(userId: string, now: int)
    returns (d1: RateLimit.Decision, d2: RateLimit.Decision, d3: RateLimit.Decision)
    requires userId != ""
    ensures d1 == RateLimit.Allowed(2.0, 1)
    ensures d2 == RateLimit.Allowed(2.0, 0)
    ensures d3 == RateLimit.Rejected(2.0, 1)
  {
    var limiter := new RateLimit.Limiter(Some(2.0), Some(1000.0), None);
    var req := RateLimit.Request(Some(userId), None, None, None, None);
    d1 := limiter.Handle(req, now);
    d2 := limiter.Handle(req, now);
    d3 := limiter.Handle(req, now);
    assert (1.0 - 0.0) / (2.0 / 1000.0) == 500.0;
    assert RateLimit.Ceil(500.0) == 500;
    assert RateLimit.Ceil(0.5) == 1;
  }
}
