/** The worker side of the queue: the guarded claim of the oldest eligible
    job, the three outcome writes, the retry delay and the handler run that
    sequences them. */
module Processor {
  import opened Types
  import opened Store
  import opened Query
  import Helpers

  const DefaultLeaseMs: int := 30000
  const BackoffBaseMs: nat := 1000
  const BackoffCapMs: nat := 60000
  const HandlerMissingMessage: string := "handler-missing: Task handler must export a function"

  /** Math.floor(Math.random() * 1000) */
  type Jitter = j: int | 0 <= j < 1000

  // ---------------------------------------------------------------------
  // Claim

  /** status = 'pending' OR (status = 'failed' AND retries < max_retries AND
      (next_attempt_after IS NULL OR next_attempt_after <= now)) */
  predicate ClaimEligible(j: Job, now: int) {
    || j.status == Pending
    || (&& j.status == Failed
        && j.retries < j.maxRetries
        && (j.nextAttemptAfter.None? || j.nextAttemptAfter.value <= now))
  }

  function EligibleIds(jobs: map<JobId, Job>, now: int): set<JobId> {
    set id | id in jobs && ClaimEligible(jobs[id], now)
  }

  /** The row after a successful claim: running, leased to `workerId` until
      `leaseUntil`, started at `now`; every other column as it was. */
  function Claimed(j: Job, workerId: string, leaseUntil: int, now: int): (r: Job)
    ensures r.status == Running && r.leaseWorker == Some(workerId) && r.leaseUntil == Some(leaseUntil)
    ensures LeaseConsistent(r)
    ensures !ClaimEligible(r, now)
  {
    j.(status := Running, leaseWorker := Some(workerId), leaseUntil := Some(leaseUntil), startedAt := Some(now))
  }

  /** The compare-and-swap half of the claim: UPDATE ... WHERE id = ? AND
      <eligible>. It changes one row when that row is still eligible and
      nothing otherwise, and reports the number of changed rows. */
  method GuardedClaim(db: Db, id: JobId, workerId: string, leaseUntil: int, now: int)
    returns (changes: nat)
    requires db.Valid()
    modifies db`jobs
    ensures db.Valid() && Evolves(old(db.jobs), db.jobs)
    ensures changes == (if id in old(db.jobs) && ClaimEligible(old(db.jobs)[id], now) then 1 else 0)
    ensures changes == 1 ==> db.jobs == old(db.jobs)[id := Claimed(old(db.jobs)[id], workerId, leaseUntil, now)]
    ensures changes == 0 ==> db.jobs == old(db.jobs)
  {
    if id in db.jobs && ClaimEligible(db.jobs[id], now) {
      db.jobs := db.jobs[id := Claimed(db.jobs[id], workerId, leaseUntil, now)];
      changes := 1;
    } else {
      changes := 0;
    }
  }

  /** One claim transaction: select the oldest eligible job, claim it with
      the guarded update and return the updated row; None when nothing is
      eligible (the store is then unchanged). */
  method ClaimNextJob(db: Db, workerId: string, leaseMs: int, now: int) returns (job: Option<Job>)
    requires db.Valid()
    modifies db`jobs
    ensures db.Valid() && Evolves(old(db.jobs), db.jobs)
    ensures job.None? <==> EligibleIds(old(db.jobs), now) == {}
    ensures job.None? ==> db.jobs == old(db.jobs)
    ensures job.Some? ==>
      var id := job.value.id;
      && id in old(db.jobs)
      && ClaimEligible(old(db.jobs)[id], now)
      && (forall other :: other in old(db.jobs) && ClaimEligible(old(db.jobs)[other], now) ==>
            old(db.jobs)[id].createdAt <= old(db.jobs)[other].createdAt)
      && db.jobs == old(db.jobs)[id := Claimed(old(db.jobs)[id], workerId, now + leaseMs, now)]
      && job.value == db.jobs[id]
  {
    var leaseUntil := now + leaseMs;
    var candidate := SelectOldest(db.jobs, EligibleIds(db.jobs, now), 1);
    if |candidate| == 0 {
      return None;
    }
    var id := candidate[0];
    var changes := GuardedClaim(db, id, workerId, leaseUntil, now);
    if changes == 1 {
      job := Some(db.jobs[id]);
    } else {
      job := None;
    }
  }

  // ---------------------------------------------------------------------
  // Outcomes

  /** result ? JSON.stringify(result) : null */
  function ResultColumn(v: Value): Option<string> {
    match v
    case Falsy => None
    case Truthy(json) => Some(json)
  }

  /** The row after markJobDone. */
  function Completed(j: Job, result: Value, now: int): (r: Job)
    ensures LeaseConsistent(r)
    ensures r.status == Done && r.finishedAt == Some(now)
    ensures r.result.None? <==> result.Falsy?
  {
    j.(status := Done, result := ResultColumn(result), finishedAt := Some(now), leaseWorker := None, leaseUntil := None)
  }

  method MarkJobDone(db: Db, jobId: JobId, result: Value, now: int)
    modifies db`jobs
    ensures old(db.Valid()) ==> db.Valid()
    ensures Evolves(old(db.jobs), db.jobs)
    ensures db.jobs == if jobId in old(db.jobs) then old(db.jobs)[jobId := Completed(old(db.jobs)[jobId], result, now)] else old(db.jobs)
  {
    if jobId in db.jobs {
      db.jobs := db.jobs[jobId := Completed(db.jobs[jobId], result, now)];
    }
  }

  /** The row after markJobProcessing: running, started at `now`, lease
      columns as they were. */
  function Processing(j: Job, now: int): (r: Job)
    ensures r.status == Running
    ensures LeaseConsistent(r) <==> j.leaseWorker.Some? && j.leaseUntil.Some?
    ensures LeaseConsistent(j) ==> (LeaseConsistent(r) <==> j.status == Running)
  {
    j.(status := Running, startedAt := Some(now))
  }

  /** UPDATE ... SET status = 'running', started_at = ? WHERE id = ?. It has
      no status guard: applied to a row that is not running it leaves a
      running row without a lease, so `Valid()` is not promised. */
  method MarkJobProcessing(db: Db, jobId: JobId, now: int)
    modifies db`jobs
    ensures Evolves(old(db.jobs), db.jobs)
    ensures db.jobs == if jobId in old(db.jobs) then old(db.jobs)[jobId := Processing(old(db.jobs)[jobId], now)] else old(db.jobs)
  {
    if jobId in db.jobs {
      db.jobs := db.jobs[jobId := Processing(db.jobs[jobId], now)];
    }
  }

  /** The row after markJobFailed: one more retry, the error recorded, the
      lease released; then dead-lettered (hard fail) or failed with the next
      attempt `retryDelayMs` from now (null when the delay is not positive). */
  function FailedAttempt(j: Job, errorMessage: string, retryDelayMs: int, hardFail: bool, now: int): (r: Job)
    ensures LeaseConsistent(r)
    ensures r.retries == j.retries + 1 && r.error == Some(errorMessage) && r.finishedAt == Some(now)
    ensures hardFail ==> r.status == Dlq && r.nextAttemptAfter.None?
    ensures !hardFail ==> r.status == Failed && (r.nextAttemptAfter.Some? <==> retryDelayMs > 0)
    ensures !hardFail && retryDelayMs > 0 ==> r.nextAttemptAfter.value - now == retryDelayMs
  {
    var bumped := j.(retries := j.retries + 1, error := Some(errorMessage), finishedAt := Some(now),
                     leaseWorker := None, leaseUntil := None);
    if hardFail then bumped.(status := Dlq, nextAttemptAfter := None)
    else bumped.(status := Failed, nextAttemptAfter := if retryDelayMs > 0 then Some(now + retryDelayMs) else None)
  }

  /** markJobFailed: bump retries and release the lease, re-read the row,
      then set the final status. Returns the status written, or None when
      the row does not exist. The soft path writes 'failed' even when the
      retries are now exhausted. */
  method MarkJobFailed(db: Db, jobId: JobId, errorMessage: string, retryDelayMs: int, hardFail: bool, now: int)
    returns (r: Option<Status>)
    modifies db`jobs
    ensures old(db.Valid()) ==> db.Valid()
    ensures Evolves(old(db.jobs), db.jobs)
    ensures jobId !in old(db.jobs) ==> r.None? && db.jobs == old(db.jobs)
    ensures jobId in old(db.jobs) ==>
      && r == Some(if hardFail then Dlq else Failed)
      && db.jobs == old(db.jobs)[jobId := FailedAttempt(old(db.jobs)[jobId], errorMessage, retryDelayMs, hardFail, now)]
  {
    ghost var before := db.jobs;
    if jobId in db.jobs {
      var row := db.jobs[jobId];
      db.jobs := db.jobs[jobId := row.(retries := row.retries + 1, error := Some(errorMessage),
                                       finishedAt := Some(now), leaseWorker := None, leaseUntil := None)];
    }
    if jobId !in db.jobs {
      return None;
    }
    var nextAttempt := if retryDelayMs > 0 then Some(now + retryDelayMs) else None;
    if hardFail {
      db.jobs := db.jobs[jobId := db.jobs[jobId].(status := Dlq, nextAttemptAfter := None)];
      r := Some(Dlq);
    } else {
      db.jobs := db.jobs[jobId := db.jobs[jobId].(status := Failed, nextAttemptAfter := nextAttempt)];
      r := Some(Failed);
    }
    assert db.jobs == before[jobId := FailedAttempt(before[jobId], errorMessage, retryDelayMs, hardFail, now)];
    ReplaceRow(before, jobId, FailedAttempt(before[jobId], errorMessage, retryDelayMs, hardFail, now));
  }

  // ---------------------------------------------------------------------
  // Retry delay

  function Pow2(n: nat): (p: nat)
    ensures p >= 1
  {
    if n == 0 then 1 else 2 * Pow2(n - 1)
  }

  lemma {:induction false} Pow2Monotone(m: nat, n: nat)
    requires m <= n
    ensures Pow2(m) <= Pow2(n)
  {
    if m < n {
      Pow2Monotone(m, n - 1);
    }
  }

  /** min(60000, 1000 * 2 ** retries) + jitter, with `retries` the count
      before this failure. */
  function RetryDelay(retries: nat, jitter: Jitter): (d: int)
    ensures BackoffBaseMs <= d <= BackoffCapMs + 999
  {
    Min(BackoffCapMs, BackoffBaseMs * Pow2(retries)) + jitter
  }

  /** More retries never shorten the delay (for the same jitter). */
  lemma RetryDelayMonotone(r1: nat, r2: nat, jitter: Jitter)
    requires r1 <= r2
    ensures RetryDelay(r1, jitter) <= RetryDelay(r2, jitter)
  {
    Pow2Monotone(r1, r2);
  }

  /** Below the cap the delay is base * 2^retries plus the jitter; from six
      retries on (1000 * 2^6 > 60000) it is the cap plus the jitter. */
  lemma RetryDelayRanges(retries: nat, jitter: Jitter)
    ensures retries <= 5 ==> RetryDelay(retries, jitter) == BackoffBaseMs * Pow2(retries) + jitter
    ensures retries >= 6 ==> RetryDelay(retries, jitter) == BackoffCapMs + jitter
  {
    if retries <= 5 {
      Pow2Monotone(retries, 5);
    } else {
      Pow2Monotone(6, retries);
    }
  }

  // ---------------------------------------------------------------------
  // Handler run

  /** What the handler does when invoked: return a value, throw an error
      (its message, `String(err)` when it has none, and its stack), or throw
      `null` or `undefined`. In the last case reading `err.stack` for the
      error entry throws inside the catch block, so neither the error entry
      nor the failure is written and the rejection reaches the worker loop. */
  datatype HandlerOutcome =
    | Returned(result: Value)
    | Threw(message: string, stack: Option<string>)
    | ThrewNullish

  /** The argument object the handler is invoked with. */
  datatype HandlerRequest = HandlerRequest(jobId: JobId, ownerId: UserId, taskType: string,
                                           payload: HandlerPayload, workerId: string)

  /** Best-effort payload decoding: a stored string is parsed with `parse`
      and passed on unchanged when it does not parse; a null column stays
      null. */
  function ParsePayload(stored: Option<string>, parse: string -> Option<Value>): (p: HandlerPayload)
    ensures p.Raw? ==> stored == Some(p.text)
    ensures p.NullPayload? <==> stored.None?
    ensures stored.Some? && parse(stored.value).None? ==> p == Raw(stored.value)
    ensures stored.Some? && parse(stored.value).Some? ==> p == Parsed(parse(stored.value).value)
  {
    match stored
    case None => NullPayload
    case Some(text) =>
      match parse(text)
      case Some(v) => Parsed(v)
      case None => Raw(text)
  }

  function StartedEntry(job: Job, workerId: string, payload: HandlerPayload): LogEntry {
    LogEntry("job", Some(job.id), Info,
             "Worker " + workerId + " started handler for job " + job.id + " type " + job.taskType,
             Some(PayloadMeta(payload)))
  }

  /** The entries written once the handler has settled: none after a
      nullish throw. */
  function OutcomeEntries(job: Job, outcome: HandlerOutcome): seq<LogEntry> {
    match outcome
    case Returned(v) => [LogEntry("job", Some(job.id), Info, "handler processed succesfully", Some(ResultMeta(v)))]
    case Threw(m, stack) => [LogEntry("job", Some(job.id), Error, "handler-error: " + m, Some(StackMeta(stack)))]
    case ThrewNullish => []
  }

  /** The row once the handler has settled: done with its result, or soft
      failed with the backoff computed from the claimed row's retries; a
      nullish throw records nothing, so the row stays as it was. */
  function Settled(row: Job, claimedRetries: nat, outcome: HandlerOutcome, jitter: Jitter, now: int): (r: Job)
    ensures && r.id == row.id && r.ownerId == row.ownerId && r.taskType == row.taskType
            && r.createdAt == row.createdAt && r.dlqRedrives == row.dlqRedrives
    ensures !outcome.ThrewNullish? ==> LeaseConsistent(r) && r.finishedAt == Some(now)
    ensures outcome.Returned? ==> r.status == Done
    ensures outcome.Threw? ==> r.status == Failed && r.retries == row.retries + 1 && r.error == Some(outcome.message)
    ensures outcome.ThrewNullish? ==> r == row
  {
    match outcome
    case Returned(v) => Completed(row, v, now)
    case Threw(m, _) => FailedAttempt(row, m, RetryDelay(claimedRetries, jitter), false, now)
    case ThrewNullish => row
  }

  /** The try/catch around the handler call: a returned value marks the job
      done and logs it; a throw logs the error and soft-fails the job with
      the backoff for the claimed row's retry count; a nullish throw writes
      nothing. */
  method WriteOutcome(db: Db, job: Job, outcome: HandlerOutcome, jitter: Jitter, now: int)
    modifies db
    ensures Evolves(old(db.jobs), db.jobs)
    ensures db.logs == old(db.logs) + OutcomeEntries(job, outcome)
    ensures db.jobs == if job.id in old(db.jobs)
                       then old(db.jobs)[job.id := Settled(old(db.jobs)[job.id], job.retries, outcome, jitter, now)]
                       else old(db.jobs)
  {
    match outcome {
      case Returned(result) =>
        MarkJobDone(db, job.id, result, now);
        var _ := Helpers.PersistLog(db, "job", Some(job.id), Info, "handler processed succesfully",
                                    Some(ResultMeta(result)), true);
      case Threw(errMsg, stack) =>
        var retryDelay := RetryDelay(job.retries, jitter);
        var _ := Helpers.PersistLog(db, "job", Some(job.id), Error, "handler-error: " + errMsg,
                                    Some(StackMeta(stack)), true);
        var _ := MarkJobFailed(db, job.id, errMsg, retryDelay, false, now);
      case ThrewNullish =>
    }
  }

  /** The registered-handler path of runHandlerForJob: log the start, mark
      the job processing, and write the handler's outcome. The table stays
      valid unless a nullish throw leaves a row that was not running marked
      running without a lease. */
  method InvokeHandler(db: Db, job: Job, payload: HandlerPayload, outcome: HandlerOutcome,
                       workerId: string, jitter: Jitter, startNow: int, endNow: int)
    requires db.Valid()
    modifies db
    ensures Evolves(old(db.jobs), db.jobs)
    ensures (outcome.ThrewNullish? && job.id in old(db.jobs) ==> old(db.jobs)[job.id].status == Running) ==> db.Valid()
    ensures db.logs == old(db.logs) + [StartedEntry(job, workerId, payload)] + OutcomeEntries(job, outcome)
    ensures db.jobs == if job.id in old(db.jobs)
                       then old(db.jobs)[job.id := Settled(Processing(old(db.jobs)[job.id], startNow), job.retries, outcome, jitter, endNow)]
                       else old(db.jobs)
  {
    ghost var before := db.jobs;
    var _ := Helpers.PersistLog(db, "job", Some(job.id), Info,
                                "Worker " + workerId + " started handler for job " + job.id + " type " + job.taskType,
                                Some(PayloadMeta(payload)), true);
    MarkJobProcessing(db, job.id, startNow);
    WriteOutcome(db, job, outcome, jitter, endNow);
    if job.id in before {
      ReplaceRow(before, job.id, Settled(Processing(before[job.id], startNow), job.retries, outcome, jitter, endNow));
    }
  }

  /** runHandlerForJob for the row `job` returned by the claim. A task type
      without a handler in `registry` dead-letters the job at once and the
      handler is never invoked; otherwise the job is marked processing, the
      handler is invoked (its `outcome` is an input) and the outcome is
      written. `startNow` and `endNow` are the clock before and after the
      handler. Returns the request the handler was invoked with. */
  method RunHandlerForJob(db: Db, job: Job, registry: set<string>, parse: string -> Option<Value>,
                          outcome: HandlerOutcome, workerId: string, jitter: Jitter,
                          startNow: int, endNow: int)
    returns (invoked: Option<HandlerRequest>)
    requires db.Valid()
    modifies db
    ensures Evolves(old(db.jobs), db.jobs)
    ensures (job.taskType in registry && outcome.ThrewNullish? && job.id in old(db.jobs) ==>
               old(db.jobs)[job.id].status == Running) ==> db.Valid()
    ensures job.taskType !in registry ==>
      && invoked.None?
      && db.logs == old(db.logs) + [LogEntry("job", Some(job.id), Error, HandlerMissingMessage, None)]
      && db.jobs == if job.id in old(db.jobs)
                    then old(db.jobs)[job.id := FailedAttempt(old(db.jobs)[job.id], HandlerMissingMessage, 0, true, startNow)]
                    else old(db.jobs)
    ensures job.taskType in registry ==>
      && invoked == Some(HandlerRequest(job.id, job.ownerId, job.taskType, ParsePayload(job.payload, parse), workerId))
      && db.logs == old(db.logs) + [StartedEntry(job, workerId, ParsePayload(job.payload, parse))] + OutcomeEntries(job, outcome)
      && db.jobs == if job.id in old(db.jobs)
                    then old(db.jobs)[job.id := Settled(Processing(old(db.jobs)[job.id], startNow), job.retries, outcome, jitter, endNow)]
                    else old(db.jobs)
  {
    if job.taskType !in registry {
      var _ := Helpers.PersistLog(db, "job", Some(job.id), Error, HandlerMissingMessage, None, true);
      var _ := MarkJobFailed(db, job.id, HandlerMissingMessage, 0, true, startNow);
      return None;
    }
    var payload := ParsePayload(job.payload, parse);
    InvokeHandler(db, job, payload, outcome, workerId, jitter, startNow, endNow);
    invoked := Some(HandlerRequest(job.id, job.ownerId, job.taskType, payload, workerId));
  }
}
