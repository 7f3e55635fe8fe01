/** The shared persistent state: the jobs table and the logs table. Every
    transaction of the workers, the coordinator and the services is one
    atomic method over a `Db`. */
module Store {
  import opened Types

  /** `lease_worker` and `lease_until` are both set exactly when the job is
      running, and both null otherwise. */
  predicate LeaseConsistent(j: Job) {
    if j.status == Running then j.leaseWorker.Some? && j.leaseUntil.Some?
    else j.leaseWorker.None? && j.leaseUntil.None?
  }

  /** The row stored under `id` carries that id, keeps the lease invariant and
      has used at most its one dead-letter redrive. */
  predicate RowValid(id: JobId, j: Job) {
    j.id == id && LeaseConsistent(j) && Redrives(j) <= 1
  }

  predicate TableValid(jobs: map<JobId, Job>) {
    forall id :: id in jobs ==> RowValid(id, jobs[id])
  }

  /** How the table may change from one state to a later one: rows are never
      deleted, id, owner, task type and created_at never change, and
      dlq_redrives never decreases. */
  predicate Evolves(before: map<JobId, Job>, after: map<JobId, Job>) {
    && before.Keys <= after.Keys
    && forall id :: id in before ==>
         && after[id].id == before[id].id
         && after[id].ownerId == before[id].ownerId
         && after[id].taskType == before[id].taskType
         && after[id].createdAt == before[id].createdAt
         && Redrives(after[id]) >= Redrives(before[id])
  }

  /** Replacing one row by a row with the same identity columns and no fewer
      redrives is an evolution of the table, and keeps it valid when the new
      row is itself valid. */
  lemma ReplaceRow(jobs: map<JobId, Job>, id: JobId, row: Job)
    requires id in jobs
    requires && row.id == jobs[id].id && row.ownerId == jobs[id].ownerId
             && row.taskType == jobs[id].taskType && row.createdAt == jobs[id].createdAt
             && Redrives(row) >= Redrives(jobs[id])
    ensures Evolves(jobs, jobs[id := row])
    ensures TableValid(jobs) && LeaseConsistent(row) && Redrives(row) <= 1 ==> TableValid(jobs[id := row])
  {
  }

  class Db {
    var jobs: map<JobId, Job>
    var logs: seq<LogEntry>

    ghost predicate Valid()
      reads this
    {
      TableValid(jobs)
    }

    constructor ()
      ensures Valid() && jobs == map[] && logs == []
    {
      jobs := map[];
      logs := [];
    }
  }
}
