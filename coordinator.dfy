/** The coordinator's sweep: four batch passes over the jobs table, each one
    transaction that selects a set of rows and then updates and logs them
    one by one, run in a fixed order. */
module Coordinator {
  import opened Types
  import opened Store
  import opened Query
  import Helpers

  /** The batch size the sweep loop passes to the redrive pass. */
  const SweepRedriveBatch: nat := 5

  const ReclaimMessage: string := "lease expired; reclaimed by coordinator"
  const PromoteMessage: string := "moved to dlq by coordinator"
  const ReenableMessage: string := "re-enabled for retry by coordinator"
  const RequeueMessage: string := "requeued from dlq by coordinator (dlq_redrives incremented)"

  // ---------------------------------------------------------------------
  // The selections

  /** status = 'running' AND lease_until IS NOT NULL AND lease_until <= now */
  predicate LeaseExpired(j: Job, now: int) {
    j.status == Running && j.leaseUntil.Some? && j.leaseUntil.value <= now
  }

  /** status = 'failed' AND retries >= max_retries */
  predicate Exhausted(j: Job) {
    j.status == Failed && j.retries >= j.maxRetries
  }

  /** status = 'failed' AND next_attempt_after IS NOT NULL AND next_attempt_after <= now */
  predicate RetryDue(j: Job, now: int) {
    j.status == Failed && j.nextAttemptAfter.Some? && j.nextAttemptAfter.value <= now
  }

  /** status = 'dlq' AND COALESCE(dlq_redrives, 0) < 1 */
  predicate Redrivable(j: Job) {
    j.status == Dlq && Redrives(j) < 1
  }

  function ExpiredIds(jobs: map<JobId, Job>, now: int): set<JobId> {
    set id | id in jobs && LeaseExpired(jobs[id], now)
  }

  function ExhaustedIds(jobs: map<JobId, Job>): set<JobId> {
    set id | id in jobs && Exhausted(jobs[id])
  }

  function DueIds(jobs: map<JobId, Job>, now: int): set<JobId> {
    set id | id in jobs && RetryDue(jobs[id], now)
  }

  function RedrivableIds(jobs: map<JobId, Job>): set<JobId> {
    set id | id in jobs && Redrivable(jobs[id])
  }

  // ---------------------------------------------------------------------
  // The per-row updates

  /** UPDATE ... SET status = 'pending', lease_worker = NULL, lease_until = NULL
      WHERE id = ? AND status = 'running' */
  function Reclaimed(j: Job): Job {
    if j.status == Running then j.(status := Pending, leaseWorker := None, leaseUntil := None) else j
  }

  function Promoted(j: Job): Job {
    j.(status := Dlq)
  }

  function Reenabled(j: Job): Job {
    j.(status := Pending)
  }

  function Redriven(j: Job): Job {
    j.(status := Pending, dlqRedrives := Some(Redrives(j) + 1), error := None, finishedAt := None,
       nextAttemptAfter := None, retries := 0)
  }

  /** The table after `f` has been applied to the rows in `ids`. */
  function UpdateRows(jobs: map<JobId, Job>, ids: set<JobId>, f: Job -> Job): map<JobId, Job> {
    map id | id in jobs :: if id in ids then f(jobs[id]) else jobs[id]
  }

  lemma UpdateRowsStep(jobs: map<JobId, Job>, ids: set<JobId>, x: JobId, f: Job -> Job)
    requires x !in ids
    ensures UpdateRows(jobs, ids + {x}, f) ==
            if x in jobs then UpdateRows(jobs, ids, f)[x := f(jobs[x])] else UpdateRows(jobs, ids, f)
  {
    var lhs := UpdateRows(jobs, ids + {x}, f);
    var rhs := if x in jobs then UpdateRows(jobs, ids, f)[x := f(jobs[x])] else UpdateRows(jobs, ids, f);
    assert lhs.Keys == rhs.Keys;
    forall id | id in lhs ensures lhs[id] == rhs[id] {}
  }

  /** The audit entries a pass writes, one per row, in the order it visits them. */
  function JobEntries(ids: seq<JobId>, level: Level, message: string, meta: Option<Meta>): (r: seq<LogEntry>)
    ensures |r| == |ids|
    ensures forall i :: 0 <= i < |ids| ==> r[i] == LogEntry("job", Some(ids[i]), level, message, meta)
  {
    if ids == [] then []
    else JobEntries(ids[..|ids| - 1], level, message, meta) + [LogEntry("job", Some(ids[|ids| - 1]), level, message, meta)]
  }

  lemma JobEntriesSnoc(ids: seq<JobId>, k: nat, level: Level, message: string, meta: Option<Meta>)
    requires k < |ids|
    ensures JobEntries(ids[..k + 1], level, message, meta)
            == JobEntries(ids[..k], level, message, meta) + [LogEntry("job", Some(ids[k]), level, message, meta)]
  {
    assert ids[..k + 1][..k] == ids[..k];
  }

  lemma ToSetSnoc(ids: seq<JobId>, k: nat)
    requires k < |ids| && Distinct(ids)
    ensures ToSet(ids[..k + 1]) == ToSet(ids[..k]) + {ids[k]}
    ensures ids[k] !in ToSet(ids[..k])
  {
    assert ids[..k + 1] == ids[..k] + [ids[k]];
  }

  /** The body of every pass: `for (const row of rows) { UPDATE row; persistLog(...) }`. */
  method UpdateEach(db: Db, ids: seq<JobId>, f: Job -> Job, level: Level, message: string, meta: Option<Meta>)
    requires Distinct(ids)
    modifies db
    ensures db.jobs == UpdateRows(old(db.jobs), ToSet(ids), f)
    ensures db.logs == old(db.logs) + JobEntries(ids, level, message, meta)
  {
    var k := 0;
    while k < |ids|
      invariant 0 <= k <= |ids|
      invariant db.jobs == UpdateRows(old(db.jobs), ToSet(ids[..k]), f)
      invariant db.logs == old(db.logs) + JobEntries(ids[..k], level, message, meta)
    {
      var id := ids[k];
      ToSetSnoc(ids, k);
      UpdateRowsStep(old(db.jobs), ToSet(ids[..k]), id, f);
      JobEntriesSnoc(ids, k, level, message, meta);
      if id in db.jobs {
        db.jobs := db.jobs[id := f(db.jobs[id])];
      }
      assert db.jobs == UpdateRows(old(db.jobs), ToSet(ids[..k + 1]), f);
      var _ := Helpers.PersistLog(db, "job", Some(id), level, message, meta, true);
      assert db.logs == old(db.logs) + JobEntries(ids[..k + 1], level, message, meta);
      k := k + 1;
    }
    assert ids[..k] == ids;
  }

  /** `order` lists the ids of `s`, each once. */
  ghost predicate Enumerates(order: seq<JobId>, s: set<JobId>) {
    Distinct(order) && ToSet(order) == s
  }

  // ---------------------------------------------------------------------
  // Reclaim expired leases

  /** The table after the reclaim pass. */
  function ReclaimPass(jobs: map<JobId, Job>, now: int): (r: map<JobId, Job>)
    ensures r.Keys == jobs.Keys
    ensures ExpiredIds(r, now) == {}
    ensures forall id :: id in jobs && LeaseExpired(jobs[id], now) ==>
              r[id] == jobs[id].(status := Pending, leaseWorker := None, leaseUntil := None)
    ensures forall id :: id in jobs && !LeaseExpired(jobs[id], now) ==> r[id] == jobs[id]
    ensures TableValid(jobs) ==> TableValid(r) && Evolves(jobs, r)
  {
    var r := UpdateRows(jobs, ExpiredIds(jobs, now), Reclaimed);
    assert ExpiredIds(r, now) == {} by {
      forall id | id in r ensures !LeaseExpired(r[id], now) {}
    }
    r
  }

  /** reclaimExpiredLeases: every running job whose lease has run out goes
      back to pending with its lease cleared; returns how many. */
  method ReclaimExpiredLeases(db: Db, now: int) returns (n: nat)
    requires db.Valid()
    modifies db
    ensures db.Valid() && Evolves(old(db.jobs), db.jobs)
    ensures |db.logs| == |old(db.logs)| + n && db.logs[..|old(db.logs)|] == old(db.logs)
    ensures db.jobs == ReclaimPass(old(db.jobs), now)
    ensures n == |ExpiredIds(old(db.jobs), now)|
    ensures exists order :: Enumerates(order, ExpiredIds(old(db.jobs), now)) &&
              db.logs == old(db.logs) + JobEntries(order, Warn, ReclaimMessage, None)
  {
    var expired := SelectIds(ExpiredIds(db.jobs, now));
    if |expired| == 0 {
      assert Enumerates([], ExpiredIds(db.jobs, now));
      assert db.logs == old(db.logs) + JobEntries([], Warn, ReclaimMessage, None);
      return 0;
    }
    UpdateEach(db, expired, Reclaimed, Warn, ReclaimMessage, None);
    assert Enumerates(expired, ExpiredIds(old(db.jobs), now));
    n := |expired|;
  }

  // ---------------------------------------------------------------------
  // Promote exhausted failures to the dead-letter queue

  function PromotePass(jobs: map<JobId, Job>): (r: map<JobId, Job>)
    ensures r.Keys == jobs.Keys
    ensures ExhaustedIds(r) == {}
    ensures forall id :: id in jobs && Exhausted(jobs[id]) ==> r[id] == jobs[id].(status := Dlq)
    ensures forall id :: id in jobs && !Exhausted(jobs[id]) ==> r[id] == jobs[id]
    ensures TableValid(jobs) ==> TableValid(r) && Evolves(jobs, r)
  {
    var r := UpdateRows(jobs, ExhaustedIds(jobs), Promoted);
    assert ExhaustedIds(r) == {} by {
      forall id | id in r ensures !Exhausted(r[id]) {}
    }
    r
  }

  /** movePermanentFailuresToDLQ: every failed job out of retries becomes
      'dlq' (no other column changes); returns how many. */
  method MovePermanentFailuresToDlq(db: Db) returns (n: nat)
    requires db.Valid()
    modifies db
    ensures db.Valid() && Evolves(old(db.jobs), db.jobs)
    ensures |db.logs| == |old(db.logs)| + n && db.logs[..|old(db.logs)|] == old(db.logs)
    ensures db.jobs == PromotePass(old(db.jobs))
    ensures n == |ExhaustedIds(old(db.jobs))|
    ensures exists order :: Enumerates(order, ExhaustedIds(old(db.jobs))) &&
              db.logs == old(db.logs) + JobEntries(order, Error, PromoteMessage, None)
  {
    var rows := SelectIds(ExhaustedIds(db.jobs));
    if |rows| == 0 {
      assert Enumerates([], ExhaustedIds(db.jobs));
      assert db.logs == old(db.logs) + JobEntries([], Error, PromoteMessage, None);
      return 0;
    }
    UpdateEach(db, rows, Promoted, Error, PromoteMessage, None);
    assert Enumerates(rows, ExhaustedIds(old(db.jobs)));
    n := |rows|;
  }

  // ---------------------------------------------------------------------
  // Re-enable failures whose retry time has come

  function ReenablePass(jobs: map<JobId, Job>, now: int): (r: map<JobId, Job>)
    ensures r.Keys == jobs.Keys
    ensures DueIds(r, now) == {}
    ensures forall id :: id in jobs && RetryDue(jobs[id], now) ==> r[id] == jobs[id].(status := Pending)
    ensures forall id :: id in jobs && !RetryDue(jobs[id], now) ==> r[id] == jobs[id]
    ensures forall id :: id in jobs && jobs[id].status == Failed && jobs[id].nextAttemptAfter.None? ==> r[id].status == Failed
    ensures TableValid(jobs) ==> TableValid(r) && Evolves(jobs, r)
  {
    var r := UpdateRows(jobs, DueIds(jobs, now), Reenabled);
    assert DueIds(r, now) == {} by {
      forall id | id in r ensures !RetryDue(r[id], now) {}
    }
    r
  }

  /** reenableRetryableFailedJobs: every failed job whose next attempt time
      has come becomes pending (next_attempt_after is kept); returns how many. */
  method ReenableRetryableFailedJobs(db: Db, now: int) returns (n: nat)
    requires db.Valid()
    modifies db
    ensures db.Valid() && Evolves(old(db.jobs), db.jobs)
    ensures |db.logs| == |old(db.logs)| + n && db.logs[..|old(db.logs)|] == old(db.logs)
    ensures db.jobs == ReenablePass(old(db.jobs), now)
    ensures n == |DueIds(old(db.jobs), now)|
    ensures exists order :: Enumerates(order, DueIds(old(db.jobs), now)) &&
              db.logs == old(db.logs) + JobEntries(order, Info, ReenableMessage, None)
  {
    var rows := SelectIds(DueIds(db.jobs, now));
    if |rows| == 0 {
      assert Enumerates([], DueIds(db.jobs, now));
      assert db.logs == old(db.logs) + JobEntries([], Info, ReenableMessage, None);
      return 0;
    }
    UpdateEach(db, rows, Reenabled, Info, ReenableMessage, None);
    assert Enumerates(rows, DueIds(old(db.jobs), now));
    n := |rows|;
  }

  // ---------------------------------------------------------------------
  // Redrive dead letters, once per job

  function RedrivePass(jobs: map<JobId, Job>, chosen: set<JobId>): (r: map<JobId, Job>)
    ensures r.Keys == jobs.Keys
    ensures forall id :: id in chosen && id in jobs ==>
              && r[id].status == Pending && r[id].retries == 0
              && r[id].dlqRedrives == Some(Redrives(jobs[id]) + 1)
              && r[id].error.None? && r[id].finishedAt.None? && r[id].nextAttemptAfter.None?
              && r[id].result == jobs[id].result && r[id].createdAt == jobs[id].createdAt
              && r[id].leaseWorker == jobs[id].leaseWorker && r[id].leaseUntil == jobs[id].leaseUntil
    ensures forall id :: id in chosen && id in jobs && Redrivable(jobs[id]) ==> Redrives(r[id]) == 1
    ensures forall id :: id in jobs && id !in chosen ==> r[id] == jobs[id]
    ensures chosen <= RedrivableIds(jobs) && TableValid(jobs) ==> TableValid(r) && Evolves(jobs, r)
  {
    UpdateRows(jobs, chosen, Redriven)
  }

  /** requeueDlqOnce: the oldest `batchSize` dead-lettered jobs that have not
      been redriven yet go back to pending with a fresh retry budget and
      their redrive counted; returns how many. Ties in created_at are broken
      arbitrarily, so the chosen rows are only determined up to ties. */
  method RequeueDlqOnce(db: Db, batchSize: nat, now: int) returns (n: nat)
    requires db.Valid()
    modifies db
    ensures db.Valid() && Evolves(old(db.jobs), db.jobs)
    ensures |db.logs| == |old(db.logs)| + n && db.logs[..|old(db.logs)|] == old(db.logs)
    ensures n == Min(batchSize, |RedrivableIds(old(db.jobs))|)
    ensures exists chosen ::
              && OldestFirst(old(db.jobs), RedrivableIds(old(db.jobs)), batchSize, chosen)
              && n == |chosen|
              && db.jobs == RedrivePass(old(db.jobs), ToSet(chosen))
              && db.logs == old(db.logs) + JobEntries(chosen, Info, RequeueMessage, Some(RequeuedAtMeta(now)))
  {
    var candidates := SelectOldest(db.jobs, RedrivableIds(db.jobs), batchSize);
    if |candidates| == 0 {
      assert db.logs == old(db.logs) + JobEntries([], Info, RequeueMessage, Some(RequeuedAtMeta(now)));
      assert db.jobs == RedrivePass(old(db.jobs), ToSet([]));
      return 0;
    }
    assert ToSet(candidates) <= RedrivableIds(db.jobs);
    UpdateEach(db, candidates, Redriven, Info, RequeueMessage, Some(RequeuedAtMeta(now)));
    n := |candidates|;
  }

  // ---------------------------------------------------------------------
  // The sweep

  /** The table after the first three passes at `now`. */
  function SettlePasses(jobs: map<JobId, Job>, now: int): map<JobId, Job> {
    ReenablePass(PromotePass(ReclaimPass(jobs, now)), now)
  }

  /** After the sweep (whatever the redrive pass chose), no running job has
      an expired lease, no failed job is out of retries and no failed job is
      due: the first three passes select nothing. */
  lemma SweepSettles(jobs: map<JobId, Job>, now: int, chosen: set<JobId>)
    requires chosen <= RedrivableIds(SettlePasses(jobs, now))
    ensures var after := RedrivePass(SettlePasses(jobs, now), chosen);
            ExpiredIds(after, now) == {} && ExhaustedIds(after) == {} && DueIds(after, now) == {}
  {
    var j1 := ReclaimPass(jobs, now);
    var j2 := PromotePass(j1);
    var j3 := ReenablePass(j2, now);
    var after := RedrivePass(j3, chosen);
    forall id | id in after
      ensures !LeaseExpired(after[id], now) && !Exhausted(after[id]) && !RetryDue(after[id], now)
    {
      assert id !in ExpiredIds(j1, now);
      assert id !in ExhaustedIds(j2);
      assert id !in DueIds(j3, now);
      if id !in chosen {
        assert !LeaseExpired(j2[id], now);
        assert !Exhausted(j3[id]);
      }
    }
  }

  /** On a table where the first three passes select nothing they change
      nothing, so running them again returns 0 and is a no-op. */
  lemma SettledPassesAreIdle(jobs: map<JobId, Job>, now: int)
    requires ExpiredIds(jobs, now) == {} && ExhaustedIds(jobs) == {} && DueIds(jobs, now) == {}
    ensures ReclaimPass(jobs, now) == jobs && PromotePass(jobs) == jobs && ReenablePass(jobs, now) == jobs
  {
    assert forall id :: id in jobs ==> id !in ExpiredIds(jobs, now) && id !in ExhaustedIds(jobs) && id !in DueIds(jobs, now);
  }

  function SweepMessage(reclaimed: nat, dlqd: nat, reenabled: nat, requeued: nat): string {
    "Coordinator sweep: reclaimed=" + DecimalString(reclaimed) + ", dlq=" + DecimalString(dlqd)
      + ", reenabled=" + DecimalString(reenabled) + ", requeued=" + DecimalString(requeued)
  }

  lemma PrefixChain(a: seq<LogEntry>, b: seq<LogEntry>, c: seq<LogEntry>)
    requires |a| <= |b| && b[..|a|] == a
    requires |b| <= |c| && c[..|b|] == b
    ensures c[..|a|] == a
  {
    assert c[..|a|] == c[..|b|][..|a|];
  }

  lemma EvolvesTransitive(a: map<JobId, Job>, b: map<JobId, Job>, c: map<JobId, Job>)
    requires Evolves(a, b) && Evolves(b, c)
    ensures Evolves(a, c)
  {
  }

  /** The first three passes of a sweep, in their order. */
  method SettleTable(db: Db, now: int) returns (reclaimed: nat, dlqd: nat, reenabled: nat)
    requires db.Valid()
    modifies db
    ensures db.Valid() && Evolves(old(db.jobs), db.jobs)
    ensures db.jobs == SettlePasses(old(db.jobs), now)
    ensures reclaimed == |ExpiredIds(old(db.jobs), now)|
    ensures dlqd == |ExhaustedIds(ReclaimPass(old(db.jobs), now))|
    ensures reenabled == |DueIds(PromotePass(ReclaimPass(old(db.jobs), now)), now)|
    ensures |db.logs| == |old(db.logs)| + reclaimed + dlqd + reenabled
    ensures db.logs[..|old(db.logs)|] == old(db.logs)
  {
    ghost var j0 := db.jobs;
    ghost var l0 := db.logs;
    reclaimed := ReclaimExpiredLeases(db, now);
    ghost var j1 := db.jobs;
    ghost var l1 := db.logs;
    dlqd := MovePermanentFailuresToDlq(db);
    ghost var j2 := db.jobs;
    ghost var l2 := db.logs;
    reenabled := ReenableRetryableFailedJobs(db, now);
    EvolvesTransitive(j0, j1, j2);
    EvolvesTransitive(j0, j2, db.jobs);
    PrefixChain(l0, l1, l2);
    PrefixChain(l0, l2, db.logs);
  }

  /** The sweep's summary entry, written only when some pass did work. */
  method LogSweepSummary(db: Db, reclaimed: nat, dlqd: nat, reenabled: nat, requeued: nat)
    modifies db`logs
    ensures reclaimed + dlqd + reenabled + requeued == 0 ==> db.logs == old(db.logs)
    ensures reclaimed + dlqd + reenabled + requeued > 0 ==>
              db.logs == old(db.logs) + [LogEntry("worker", Some("171"), Info,
                 SweepMessage(reclaimed, dlqd, reenabled, requeued), Some(EmptyMeta))]
  {
    if reclaimed + dlqd + reenabled + requeued > 0 {
      var _ := Helpers.PersistLog(db, "worker", Some("171"), Info,
                                  SweepMessage(reclaimed, dlqd, reenabled, requeued), Some(EmptyMeta), true);
    }
  }

  /** The four passes of a sweep, in their order, with a redrive batch of
      five. */
  method SweepPasses(db: Db, now: int) returns (reclaimed: nat, dlqd: nat, reenabled: nat, requeued: nat)
    requires db.Valid()
    modifies db
    ensures db.Valid() && Evolves(old(db.jobs), db.jobs)
    ensures reclaimed == |ExpiredIds(old(db.jobs), now)|
    ensures dlqd == |ExhaustedIds(ReclaimPass(old(db.jobs), now))|
    ensures reenabled == |DueIds(PromotePass(ReclaimPass(old(db.jobs), now)), now)|
    ensures requeued == Min(SweepRedriveBatch, |RedrivableIds(SettlePasses(old(db.jobs), now))|)
    ensures exists chosen ::
              && OldestFirst(SettlePasses(old(db.jobs), now), RedrivableIds(SettlePasses(old(db.jobs), now)), SweepRedriveBatch, chosen)
              && db.jobs == RedrivePass(SettlePasses(old(db.jobs), now), ToSet(chosen))
    ensures ExpiredIds(db.jobs, now) == {} && ExhaustedIds(db.jobs) == {} && DueIds(db.jobs, now) == {}
    ensures |db.logs| == |old(db.logs)| + reclaimed + dlqd + reenabled + requeued
    ensures db.logs[..|old(db.logs)|] == old(db.logs)
  {
    ghost var j0 := db.jobs;
    ghost var l0 := db.logs;
    reclaimed, dlqd, reenabled := SettleTable(db, now);
    ghost var j3 := db.jobs;
    ghost var l3 := db.logs;
    requeued := RequeueDlqOnce(db, SweepRedriveBatch, now);
    ghost var chosen :| && OldestFirst(j3, RedrivableIds(j3), SweepRedriveBatch, chosen)
                        && db.jobs == RedrivePass(j3, ToSet(chosen));
    SweepSettles(j0, now, ToSet(chosen));
    EvolvesTransitive(j0, j3, db.jobs);
    PrefixChain(l0, l3, db.logs);
  }

  /** One iteration of the coordinator loop: reclaim, promote, re-enable,
      redrive at most five; one summary entry when any pass did work. */
  method Sweep(db: Db, now: int) returns (reclaimed: nat, dlqd: nat, reenabled: nat, requeued: nat)
    requires db.Valid()
    modifies db
    ensures db.Valid() && Evolves(old(db.jobs), db.jobs)
    ensures reclaimed == |ExpiredIds(old(db.jobs), now)|
    ensures dlqd == |ExhaustedIds(ReclaimPass(old(db.jobs), now))|
    ensures reenabled == |DueIds(PromotePass(ReclaimPass(old(db.jobs), now)), now)|
    ensures requeued == Min(SweepRedriveBatch, |RedrivableIds(SettlePasses(old(db.jobs), now))|)
    ensures exists chosen ::
              && OldestFirst(SettlePasses(old(db.jobs), now), RedrivableIds(SettlePasses(old(db.jobs), now)), SweepRedriveBatch, chosen)
              && db.jobs == RedrivePass(SettlePasses(old(db.jobs), now), ToSet(chosen))
    ensures ExpiredIds(db.jobs, now) == {} && ExhaustedIds(db.jobs) == {} && DueIds(db.jobs, now) == {}
    ensures |db.logs| >= |old(db.logs)| && db.logs[..|old(db.logs)|] == old(db.logs)
    ensures reclaimed + dlqd + reenabled + requeued == 0 ==> db.logs == old(db.logs)
    ensures reclaimed + dlqd + reenabled + requeued > 0 ==>
              |db.logs| == |old(db.logs)| + reclaimed + dlqd + reenabled + requeued + 1 &&
              db.logs[|db.logs| - 1] == LogEntry("worker", Some("171"), Info,
                 SweepMessage(reclaimed, dlqd, reenabled, requeued), Some(EmptyMeta))
  {
    ghost var l0 := db.logs;
    reclaimed, dlqd, reenabled, requeued := SweepPasses(db, now);
    ghost var j4 := db.jobs;
    ghost var l4 := db.logs;
    LogSweepSummary(db, reclaimed, dlqd, reenabled, requeued);
    assert db.jobs == j4;
    if reclaimed + dlqd + reenabled + requeued > 0 {
      assert db.logs[..|l4|] == l4;
      PrefixChain(l0, l4, db.logs);
    } else {
      assert l4[..|l0|] == l4;
    }
  }
}
