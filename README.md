# Job queue lifecycle model (nurix-scheduler-be)

A Dafny model of the scheduler's job lifecycle engine, with proofs. The store is one jobs table and one append-only audit log. Four parts of the system act on it:

- **Workers** (`workers/processor.js`) claim the oldest eligible job with a guarded compare-and-swap update. They run the job's handler and record the outcome: done, a soft failure with exponential backoff and jitter, or a hard failure straight to the dead-letter queue.
- **The coordinator** (`workers/coordinator.js`) sweeps the table in four passes, in a fixed order:
  1. it reclaims expired leases;
  2. it promotes exhausted failures to `dlq`;
  3. it re-enables failures whose retry time has come;
  4. it redrives at most five dead letters, each job at most once.
- **The jobs service** (`services/jobs.js`) inserts validated submissions, serves single-job lookups and an owner- and role-filtered keyset listing, and computes a per-status report.
- **The rate limiter** (`middlewares/rateLimiter.js`) keeps a token bucket per client key.

## How it is modelled

- **Store:** `Store.Db` is a class with a `jobs: map<JobId, Job>` field and a `logs: seq<LogEntry>` field. Each SQL statement or transaction of the source is one method that reassigns these fields.
- **Table invariant:** `Db.Valid()` (`Store.TableValid`) says three things:
  - every row is stored under its own id;
  - `lease_worker` and `lease_until` are both set exactly when the job is running;
  - a job has used at most its one redrive.
- **How the table may change:** `Store.Evolves` says no row is deleted, identity columns never change, and `dlq_redrives` never decreases. Every method that models one statement or transaction of the source promises it. The exception is the generic per-row loop `Coordinator.UpdateEach`, whose row update is a parameter; the passes built on it do promise it.
- **Selections:** the three kinds of SELECT live in module `Query`. They are loops over the candidate set, each specified by what SQL may return:
  - `SelectOldest` implements `ORDER BY created_at ASC LIMIT n`, ties in any order;
  - `SelectNewest` implements `ORDER BY created_at DESC, id DESC LIMIT n`, a strict total order, so its result is unique;
  - `SelectIds` returns the matching ids in no particular order.
- **Inputs:** the clock (`now`), the jitter, the worker id, the new job's UUID, the handler outcome and the payload parser are all parameters.
- **Handlers:** the registry is the set of task-type names that have a handler. A handler's behaviour is an input: it returns a value, falsy or truthy with its JSON, or it throws.
- **Behaviour as written:** in these places the model follows what the code does rather than what its documentation intends:
  - A soft failure always writes `failed`, even when `retries` reaches `max_retries` (workers/processor.js:95-98). The coordinator's promote pass later moves such a job to `dlq`. As a result, the `status === "dlq"` branch after the soft failure (workers/processor.js:181-188) can never run, and it is not modelled.
  - Pages of the listing are meant never to overlap, with the cursor being the `created_at` of the last row returned. The code uses the `created_at` of the extra, dropped row, with an inclusive `<=`. Pages then do not overlap only when no two jobs share a `created_at`: `Jobs.NextPageStartsAtDroppedRow` proves the distinct case. With a tie, `Jobs.TiedPagesRepeat` shows a case where the next page is the same page again.
  - `persistLog` is `async` and none of the core's callers await it. A failed log write therefore never changes what `scheduleJob`, the worker or the coordinator returns: `ScheduleJob` reports the job as scheduled even when its log entry is lost. The rejected promise is not lost, though; it ends the process (see "## Left out").

## Model

| member | source | states |
|---|---|---|
| Helpers.ValidateTaskType | helpers/index.js:29-31 | a task type passes the whitelist exactly when the handler registry has a function for it or it is "faliureTest" |
| Helpers.AcceptedWithoutHandler | helpers/index.js:3-9 | "faliureTest" is the only accepted task type the handler registry has no function for |
| Helpers.PersistLog | helpers/index.js:11-27 | a successful write appends exactly one entry with the given owner type, owner, level, message and meta, and returns true; on a store failure the error is passed on and nothing is appended |
| Query.SelectOldest | workers/coordinator.js:88-99 | returns min(n, number of candidates) distinct candidates, in non-decreasing created_at order; no candidate left out is strictly older than a chosen one |
| Query.SelectNewest | services/jobs.js:124-131 | returns the min(k, number of candidates) newest candidates, strictly newest first by (created_at, id); every candidate left out comes after all chosen ones |
| Query.SelectIds | workers/coordinator.js:13-17 | lists every matching id exactly once |
| Query.TopRowsUnique | services/jobs.js:128 | ordering by created_at then id, both descending, determines the result: two results of the same listing query are equal |
| Query.NewerTotal | services/jobs.js:128 | any two distinct rows are ordered by (created_at DESC, id DESC) one way or the other |
| Query.NewerTransitive | services/jobs.js:128 | the listing order is transitive |
| Query.StrLessTotal | services/jobs.js:128 | text comparison of two different ids orders them one way or the other |
| Processor.Claimed | workers/processor.js:36-39 | a claimed row is running, holds a consistent lease and is no longer claim-eligible |
| Processor.GuardedClaim | workers/processor.js:34-43 | the guarded UPDATE changes that one row exactly when it is still eligible (reporting 1 changed row), and otherwise changes nothing and reports 0 |
| Processor.ClaimNextJob | workers/processor.js:17-52 | returns null exactly when no job is eligible, and then the table is unchanged. Otherwise the returned row was eligible, no eligible job is strictly older, only that row changed (running, leased to the worker until now + leaseMs, started now), and the updated row is returned |
| Processor.Completed | workers/processor.js:56-59 | the done row has status done, finished_at now, a released lease, and a null result exactly when the handler's result is falsy |
| Processor.MarkJobDone | workers/processor.js:54-60 | only the named row changes, as `Completed` says; a missing row leaves the table as it was; table validity is preserved |
| Processor.Processing | workers/processor.js:65-67 | the row becomes running with the lease columns untouched, so it is lease-consistent exactly when both lease columns were set; for a row that was lease-consistent, exactly when it was already running |
| Processor.MarkJobProcessing | workers/processor.js:62-68 | only the named row changes, becoming running with started_at now; there is no status guard, so validity is not promised |
| Processor.FailedAttempt | workers/processor.js:78-99 | retries goes up by exactly one, the error and finished_at are set and the lease is released. A hard fail gives dlq with no next attempt. A soft fail gives failed with the next attempt at now + delay, or null when the delay is not positive |
| Processor.MarkJobFailed | workers/processor.js:70-103 | a missing row returns null and changes nothing; otherwise the row becomes `FailedAttempt` and the result is dlq for a hard fail and failed otherwise, even when retries reached max_retries |
| Processor.Pow2Monotone | workers/processor.js:167 | 2^m <= 2^n for m <= n |
| Processor.RetryDelay | workers/processor.js:165-169 | the soft-fail delay lies between 1000 and 60999 ms |
| Processor.RetryDelayMonotone | workers/processor.js:165-169 | for fixed jitter, more retries never shorten the delay |
| Processor.RetryDelayRanges | workers/processor.js:166-169 | up to five retries the delay is 1000 * 2^retries + jitter; from six on it is 60000 + jitter |
| Processor.ParsePayload | workers/processor.js:125-133 | a null payload stays null; a string that parses is passed on as its parsed value, and one that does not parse is passed on unchanged |
| Processor.Settled | workers/processor.js:155-180 | the settled row keeps its identity and redrive count. After a return it is done and after a throw it is failed with one more retry and the error message, in both cases with the lease released. After a throw of null or undefined it is unchanged |
| Processor.WriteOutcome | workers/processor.js:146-180 | a returned value marks the job done and logs the result; a throw logs "handler-error: …" and soft-fails the job with the backoff computed from the claimed row's retries; a throw of null or undefined writes neither entry nor row, because reading `err.stack` throws inside the catch; the table only evolves |
| Processor.InvokeHandler | workers/processor.js:135-180 | logs the start with the parsed payload, marks the job processing, then writes the outcome, all as one step. The table stays valid, except after a null throw on a row that was not running, which is left running without a lease |
| Processor.RunHandlerForJob | workers/processor.js:105-190 | a task type without a handler logs "handler-missing: …", dead-letters the job with that error and never invokes a handler; otherwise the handler is invoked with the job's id, owner, task type, parsed payload and worker id, and its outcome is written; the run is one step, as `InvokeHandler` says |
| Coordinator.JobEntries | workers/coordinator.js:26-31 | one warn, error or info entry per visited row, in visiting order |
| Coordinator.UpdateEach | workers/coordinator.js:21-32 | after the per-row loop, exactly the listed rows are updated and one entry per row is appended, in order |
| Coordinator.ReclaimPass | workers/coordinator.js:13-24 | afterwards no running job has an expired lease; each such job is pending with a released lease and nothing else changed; every other row is unchanged; validity is preserved |
| Coordinator.ReclaimExpiredLeases | workers/coordinator.js:10-37 | the table becomes `ReclaimPass` of it, the count returned is the number of expired leases, and one warn entry is logged per reclaimed job |
| Coordinator.PromotePass | workers/coordinator.js:41-48 | exactly the failed jobs with retries >= max_retries become dlq, with no other column changed; afterwards none is left |
| Coordinator.MovePermanentFailuresToDlq | workers/coordinator.js:39-59 | the table becomes `PromotePass` of it, the count returned is the number promoted, and one error entry is logged per job |
| Coordinator.ReenablePass | workers/coordinator.js:64-71 | exactly the failed jobs whose next attempt time has come become pending, keeping next_attempt_after; failed jobs without a next attempt stay failed |
| Coordinator.ReenableRetryableFailedJobs | workers/coordinator.js:61-82 | the table becomes `ReenablePass` of it, the count returned is the number re-enabled, and one info entry is logged per job |
| Coordinator.RedrivePass | workers/coordinator.js:103-116 | each redriven job is pending with retries 0, one more redrive, and error, finished_at and next attempt cleared; result, created_at and the lease are kept; unselected rows are unchanged |
| Coordinator.RequeueDlqOnce | workers/coordinator.js:84-136 | exactly min(batchSize, number of redrivable dead letters) jobs are redriven, only dead letters not yet redriven, and oldest first with ties in any order; there is no retries check. One info entry with the requeue time is logged per job |
| Coordinator.SweepSettles | workers/coordinator.js:151-154 | after the four passes, whatever the redrive chose, no running job has an expired lease, no failed job is out of retries and no failed job is due |
| Coordinator.SettledPassesAreIdle | workers/coordinator.js:151-153 | on a settled table the first three passes change nothing, so re-running them at the same now is a no-op that returns 0 |
| Coordinator.SettleTable | workers/coordinator.js:151-153 | runs reclaim, promote and re-enable in that order. Each count is the number of rows its pass moved: expired leases of the table, then exhausted failures after the reclaim, then due failures after the promotion. The log grows by their sum |
| Coordinator.SweepPasses | workers/coordinator.js:151-154 | the four passes with a redrive batch of 5. The counts are those of `SettleTable` plus min(5, number of redrivable dead letters left). The table ends settled and valid, and the log grows by the four counts |
| Coordinator.LogSweepSummary | workers/coordinator.js:156-166 | the summary entry with the four counts is appended exactly when their sum is positive, and nothing is written otherwise |
| Coordinator.Sweep | workers/coordinator.js:151-167 | the passes run in order with a redrive batch of 5, and the four counts returned are the numbers of rows each pass moved, as `SweepPasses` says. Afterwards no failed job is out of retries, no lease has expired and no failure is due, and the table stays valid. Exactly when the counts add up to more than zero, one summary entry is appended with the four counts |
| Jobs.NewJob | services/jobs.js:23-37 | the inserted row is valid, pending, created now, with no retries and no redrive |
| Jobs.ScheduleJob | services/jobs.js:10-50 | an invalid task type is rejected with 400 and nothing is written. An id already present makes the insert fail. Otherwise exactly one pending row is inserted, max_retries defaulting to 3, the schedule entry is logged, and `{jobId, status: "pending"}` is returned |
| Jobs.WhereClauses | services/jobs.js:96-115 | the pushed conditions match a row exactly when the row belongs to a non-admin caller (or any row for an admin), was created no later than a truthy cursor, and has a truthy status filter's status |
| Jobs.ListJobs | services/jobs.js:96-142 | the page is the result of the newest-first query for limit + 1 rows, trimmed by splicing out the extra row |
| Jobs.TrimmedPage | services/jobs.js:121-142 | the page holds at most limit stored rows, each matching the filters, newest first. There is a next cursor exactly when more than limit rows matched, and it is the created_at of the row after the page |
| Jobs.GetJobs | services/jobs.js:52-147 | an unknown id gives no jobs and a null cursor; another owner's job for a non-admin gives 403; otherwise exactly that job. Without an id, the listing behaves as `TrimmedPage` says |
| Jobs.NextPageStartsAtDroppedRow | services/jobs.js:103-138 | with distinct created_at values, the row dropped from a page is the first row of the page fetched with the returned cursor, and no row of the page is on the next |
| Jobs.TiedPagesRepeat | services/jobs.js:103-138 | with two jobs created in the same millisecond and one job per page, the page fetched with the returned cursor is the first page again |
| Jobs.GetReport | services/jobs.js:149-179 | every count is NULL exactly when the table is empty |
| Jobs.DlqSplit | services/jobs.js:159-162 | the dead letters split into those with a redrive and those without |
| Jobs.ReportPartitions | services/jobs.js:154-163 | dlq with redrive + dlq without redrive = the number of dlq jobs, and the six counts add up to the number of rows |
| RateLimit.GetKey | middlewares/rateLimiter.js:19-28 | the key is "u:" + user id when there is one, else "ip:" + the first address present, else "ip:anon" |
| RateLimit.KeysSeparate | middlewares/rateLimiter.js:19-28 | a signed-in user never shares a bucket with an address, and two users share one exactly when their ids are equal |
| RateLimit.RefilledTokens | middlewares/rateLimiter.js:30-37 | refilling never exceeds capacity, never lowers a bucket that is within capacity, and adds nothing when the clock has not advanced |
| RateLimit.Limiter.Refill | middlewares/rateLimiter.js:30-37 | the bucket holds the refilled tokens and lastRefill becomes now |
| RateLimit.RetryAfterSeconds | middlewares/rateLimiter.js:67-69 | Retry-After is at least 1 second |
| RateLimit.RetryAfterBounded | middlewares/rateLimiter.js:67-69 | Retry-After never exceeds the time one token takes to refill, rounded up to whole seconds |
| RateLimit.Limiter.constructor | middlewares/rateLimiter.js:6-13 | a falsy capacity or window takes the default (60 tokens per 60000 ms), the admin bypass is on unless explicitly false, and the store starts empty |
| RateLimit.Limiter.Handle | middlewares/rateLimiter.js:39-80 | with admin bypass an ADMIN passes and no bucket is touched. Otherwise the request's bucket (created full on first sight) is refilled. With at least one token it loses exactly one and the request passes with floor(tokens) remaining; without, it is rejected with the Retry-After computed from the refilled tokens, which stay as they are. Other buckets are untouched, and every bucket stays within 0..capacity |
| Scenarios.StartFreshJob | workers/processor.js:17-68 | a job scheduled on an empty table is claimed by the worker and marked processing, holding the worker's lease until now + 30000 |
| Scenarios.LeaseRunsOut | workers/coordinator.js:13-24 | once the first worker's lease has run out, the coordinator reclaims the job and a second worker claims it under its own lease |
| Scenarios.LateOutcomeStrandsReclaimedJob | workers/processor.js:143-155 | if a handler outlasts the lease, the coordinator reclaims the job and a second worker claims it. The first worker's late done write then clears that lease, and the second worker's processing write leaves the row running without a lease, so the table is invalid and no reclaim or claim selects the row. Only the second worker's own outcome write can still settle it; if that worker dies or its handler throws null, the row is lost |
| Scenarios.NullishThrowNeverExhausts | workers/processor.js:171-180 | a job whose handler throws null stays running with its claim lease and unchanged retries; once the lease runs out, reclaim makes it pending and claimable again, so it never reaches max_retries |
| Scenarios.ClaimRace | workers/processor.js:36-37 | two claims at the same instant never return the same job, and the second finds nothing when the first did |
| Scenarios.RedrivenAtMostOnce | workers/coordinator.js:94 | a job that used its redrive is never redrivable in any later state of the table |
| Scenarios.RedrivePassIsFinal | workers/coordinator.js:109 | every job the redrive pass moves is excluded from the next redrive pass |
| Scenarios.FailureTestDeadLetters | helpers/index.js:8 | a "faliureTest" job is accepted, claimed and dead-lettered with the handler-missing error after one attempt, and no handler is invoked |
| Scenarios.BurstAgainstOneBucket | middlewares/rateLimiter.js:59-80 | a two-token bucket passes two requests in the same millisecond (remaining 1, then 0) and rejects the third with Retry-After 1 |

## Left out

- The worker's `mainLoop`, its polling `sleep`, the cosmetic `sleep(2000)`, `shutdown` and the signal handlers are process plumbing. The same goes for the coordinator's `while (running)` loop, its waits and its catch-and-sleep. Concurrency is modelled only as sequential interleavings of the atomic methods, as in `Scenarios.ClaimRace`.
- SQLite is replaced by the in-memory map. The migration SQL is not part of this model. The model assumes `id` is the primary key, so a duplicate id makes the insert fail, and that `retries` defaults to 0 and the other unnamed columns to null.
- Storage failures of the job UPDATEs are not modelled; every UPDATE is taken to succeed. A thrown UPDATE inside the handler's `try` would take the soft-fail path.
- Processor.RunHandlerForJob: the run is taken as one atomic step. In the source it is several separate writes around `await handler(...)` and `sleep(2000)`: marking processing, then done or failed. None of them checks status or lease, and a run can outlast the 30 s lease. The methods' validity promise holds only when nothing is interleaved; `Scenarios.LateOutcomeStrandsReclaimedJob` shows one interleaving that breaks it.
- Processor.RunHandlerForJob: after a throw of null or undefined, the rejected promise that reaches the worker loop is not modelled; the method returns the request as for any invoked handler.
- Processor.RunHandlerForJob: log writes are taken to succeed. They are not awaited, so a failure cannot change what the method returns, but the rejected promise is unhandled. The worker script registers only SIGINT/SIGTERM handlers, so under Node's default the worker process ends (if the start entry fails, during `await handler(...)`), and the job stays running until reclaimed. Process termination is not modelled.
- Jobs.ScheduleJob: a failed "Job scheduled" entry is likewise an unhandled rejection; the API process's `unhandledRejection` handler (index.js:77-80) logs it and exits after the response has been sent. Process termination is not modelled.
- Coordinator.Sweep: the four passes' own log writes are taken to succeed; a failure would be an unhandled rejection that ends the coordinator process, which is not modelled.
- Coordinator.RequeueDlqOnce: the source's default `batchSize = 10` is not modelled; the batch size is a parameter, and the only call site (the sweep loop) passes 5.
- Coordinator.Sweep: one clock reading `now` serves all four passes, though each pass reads `Date.now()` itself. The post-state is stated for that single reading.
- The handlers (handlers.js, services/email.js, services/transform.js, services/webhook.js) are replaced by the registry of names and an input outcome.
- `JSON.parse` and `JSON.stringify` are abstract: the parser is a parameter and values carry their JSON text. So is the serialization of log `meta`.
- Jobs.GetJobs: the `normalize` step is not modelled. It parses payload and result and adds `created_at_iso`, so rows are returned as stored.
- Jobs.GetJobs: `limit` is a natural number. The negative or NaN limits that `parseInt` can give are not modelled.
- Jobs.GetJobs: a string cursor "0" coming over HTTP would be truthy, but the model treats a cursor of 0 as absent, as a numeric cursor is.
- No Date.now, Math.random or randomUUID: the clock, the jitter and the new job's id are parameters. ISO timestamps of log entries are not modelled.
- RateLimit.Limiter.Handle: the response headers are reduced to the values in `Decision`. The 429 status and the "Rate limit exceeded" message body of a rejection are implied by `Rejected` and not spelled out.
- RateLimit.Limiter.Handle: the catch-all that lets a request through on any internal error is not modelled.
- RateLimit.Limiter.Handle: tokens are exact reals, not JS doubles.
- RateLimit.Limiter.constructor: the `RL_CAPACITY` / `RL_WINDOW_MS` environment overrides of the defaults are not modelled.
- RateLimit.Limiter.constructor: negative or NaN options are excluded. `refill`'s null-bucket guard is unreachable from the middleware and is not modelled.
- The HTTP layer (routers, controllers, validation middleware), authentication (middlewares/user.js) and the log-reading service are outside the core.
