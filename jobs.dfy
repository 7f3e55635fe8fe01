/** The jobs service: submission with task-type validation, lookup of one
    job, the owner- and role-filtered paginated listing, and the per-status
    report. */
module Jobs {
  import opened Types
  import opened Store
  import opened Query
  import Helpers

  const DefaultMaxRetries: int := 3
  const AdminRole: string := "ADMIN"
  const InvalidTaskTypeMessage: string := "Invalid Task Type"
  const NotAuthorisedMessage: string := "Not authorised to fetch this job"

  /** JavaScript truthiness of an optional string argument: absent, null and
      "" are all falsy. */
  predicate Present(o: Option<string>) {
    o.Some? && o.value != ""
  }

  /** A numeric cursor is applied only when truthy, so 0 is ignored. */
  predicate CursorSet(cursor: Option<int>) {
    cursor.Some? && cursor.value != 0
  }

  // ---------------------------------------------------------------------
  // scheduleJob

  /** `{ jobId, status: "pending" }` */
  datatype Scheduled = Scheduled(jobId: JobId, status: string)

  /** The row the INSERT creates; the columns it does not name take their
      defaults (retries 0, every other column null). */
  function NewJob(id: JobId, ownerId: UserId, taskType: string, payload: Option<string>,
                  maxRetries: int, jobHash: Option<string>, now: int): (j: Job)
    ensures RowValid(id, j) && Redrives(j) == 0
    ensures j.status == Pending && j.retries == 0 && j.createdAt == now
  {
    Job(id, ownerId, taskType, payload, Pending, 0, maxRetries, None, None, now,
        None, None, None, None, None, None, jobHash)
  }

  function ScheduleEntry(jobId: JobId, ownerId: UserId, taskType: string, payload: Option<string>): LogEntry {
    LogEntry("user", Some(ownerId), Info, "Job scheduled with id " + jobId,
             Some(ScheduledMeta(taskType, ownerId, payload)))
  }

  /** scheduleJob. `payload` is the JSON serialization of the submitted
      payload (None when it serializes to nothing), `maxRetries` None is the
      omitted argument, `newId` the freshly generated UUID and `now` the
      clock. An unknown task type is rejected with 400 before anything is
      written; an id already in the table makes the INSERT fail. When the
      log entry cannot be written (`logStoreUp` false) the job is still
      inserted and reported as scheduled. */
  method ScheduleJob(db: Db, taskType: string, ownerId: UserId, payload: Option<string>,
                     maxRetries: Option<int>, jobHash: Option<string>, newId: JobId, now: int,
                     logStoreUp: bool)
    returns (r: Result<Scheduled>)
    requires db.Valid()
    modifies db
    ensures db.Valid() && Evolves(old(db.jobs), db.jobs)
    ensures !Helpers.ValidateTaskType(taskType) ==>
              r == Err(HttpError(400, InvalidTaskTypeMessage)) && db.jobs == old(db.jobs) && db.logs == old(db.logs)
    ensures Helpers.ValidateTaskType(taskType) && newId in old(db.jobs) ==>
              r == Err(StorageFailure) && db.jobs == old(db.jobs) && db.logs == old(db.logs)
    ensures Helpers.ValidateTaskType(taskType) && newId !in old(db.jobs) ==>
              && db.jobs == old(db.jobs)[newId := NewJob(newId, ownerId, taskType, payload,
                                                         if maxRetries.Some? then maxRetries.value else DefaultMaxRetries,
                                                         jobHash, now)]
              && r == Ok(Scheduled(newId, "pending"))
              && (logStoreUp ==> db.logs == old(db.logs) + [ScheduleEntry(newId, ownerId, taskType, payload)])
              && (!logStoreUp ==> db.logs == old(db.logs))
  {
    if !Helpers.ValidateTaskType(taskType) {
      return Err(HttpError(400, InvalidTaskTypeMessage));
    }
    if newId in db.jobs {
      return Err(StorageFailure);
    }
    var retriesAllowed := if maxRetries.Some? then maxRetries.value else DefaultMaxRetries;
    db.jobs := db.jobs[newId := NewJob(newId, ownerId, taskType, payload, retriesAllowed, jobHash, now)];
    // persistLog is not awaited: a failed write never reaches this caller.
    var _ := Helpers.PersistLog(db, "user", Some(ownerId), Info, "Job scheduled with id " + newId,
                                Some(ScheduledMeta(taskType, ownerId, payload)), logStoreUp);
    r := Ok(Scheduled(newId, "pending"));
  }

  // ---------------------------------------------------------------------
  // getJobs

  /** `{ jobs, nextCursor }` */
  datatype Page = Page(jobs: seq<Job>, nextCursor: Option<int>)

  /** One condition of the WHERE clause the listing builds. */
  datatype Clause = OwnerIs(userId: UserId) | CreatedAtMost(cursor: int) | StatusIs(status: string)

  predicate Holds(j: Job, c: Clause) {
    match c
    case OwnerIs(u) => j.ownerId == u
    case CreatedAtMost(t) => j.createdAt <= t
    case StatusIs(s) => StatusName(j.status) == s
  }

  /** The clauses joined by AND; no clause at all matches every row. */
  predicate SatisfiesAll(j: Job, clauses: seq<Clause>) {
    forall i :: 0 <= i < |clauses| ==> Holds(j, clauses[i])
  }

  /** The rows the listing may return: a non-admin caller's own rows only,
      no later than a given cursor (inclusive), with the given status. */
  predicate Listed(j: Job, userId: UserId, userRole: string, cursor: Option<int>, status: Option<string>) {
    && (userRole != AdminRole ==> j.ownerId == userId)
    && (CursorSet(cursor) ==> j.createdAt <= cursor.value)
    && (Present(status) ==> StatusName(j.status) == status.value)
  }

  function ListIds(jobs: map<JobId, Job>, userId: UserId, userRole: string,
                   cursor: Option<int>, status: Option<string>): set<JobId> {
    set id | id in jobs && Listed(jobs[id], userId, userRole, cursor, status)
  }

  /** Builds the WHERE clause the way the listing pushes its conditions. */
  method WhereClauses(userId: UserId, userRole: string, cursor: Option<int>, status: Option<string>)
    returns (clauses: seq<Clause>)
    ensures forall j :: SatisfiesAll(j, clauses) <==> Listed(j, userId, userRole, cursor, status)
    ensures |clauses| <= 3
  {
    clauses := [];
    if userRole != AdminRole {
      clauses := clauses + [OwnerIs(userId)];
    }
    if CursorSet(cursor) {
      clauses := clauses + [CreatedAtMost(cursor.value)];
    }
    if Present(status) {
      clauses := clauses + [StatusIs(status.value)];
    }
    forall j
      ensures SatisfiesAll(j, clauses) <==> Listed(j, userId, userRole, cursor, status)
    {
      if Listed(j, userId, userRole, cursor, status) {
        assert forall i :: 0 <= i < |clauses| ==> Holds(j, clauses[i]);
      }
      if SatisfiesAll(j, clauses) {
        if userRole != AdminRole {
          assert Holds(j, clauses[0]);
        }
        if CursorSet(cursor) {
          assert Holds(j, clauses[if userRole != AdminRole then 1 else 0]);
        }
        if Present(status) {
          assert Holds(j, clauses[|clauses| - 1]);
        }
      }
    }
  }

  /** The stored rows of `ids`, in order. */
  function Rows(jobs: map<JobId, Job>, ids: seq<JobId>): (rows: seq<Job>)
    requires forall i :: 0 <= i < |ids| ==> ids[i] in jobs
    ensures |rows| == |ids|
    ensures forall i :: 0 <= i < |ids| ==> rows[i] == jobs[ids[i]]
  {
    seq(|ids|, i requires 0 <= i < |ids| => jobs[ids[i]])
  }

  /** The page built from the `limit + 1` fetched rows: an extra row becomes
      the next cursor (its created_at) and is spliced out. */
  function Trimmed(rows: seq<Job>, limit: nat): Page {
    if |rows| > limit then Page(rows[..limit] + rows[limit + 1..], Some(rows[limit].createdAt))
    else Page(rows, None)
  }

  /** What the listing promises of the page cut from the rows the query
      returns: at most `limit` stored rows, each matching the filters, newest
      first, and a next cursor exactly when more rows matched than fit. */
  lemma TrimmedPage(jobs: map<JobId, Job>, userId: UserId, userRole: string, cursor: Option<int>,
                    status: Option<string>, limit: nat, ids: seq<JobId>)
    requires TableValid(jobs)
    requires TopRows(jobs, ListIds(jobs, userId, userRole, cursor, status), limit + 1, ids)
    ensures var p := Trimmed(Rows(jobs, ids), limit);
            && |p.jobs| <= limit
            && (forall i :: 0 <= i < |p.jobs| ==>
                  && p.jobs[i].id in jobs && jobs[p.jobs[i].id] == p.jobs[i]
                  && Listed(p.jobs[i], userId, userRole, cursor, status))
            && (forall i, j :: 0 <= i < j < |p.jobs| ==> Newer(jobs, p.jobs[i].id, p.jobs[j].id))
            && (p.nextCursor.Some? <==> |ListIds(jobs, userId, userRole, cursor, status)| > limit)
            && (p.nextCursor.Some? ==> p.nextCursor.value == jobs[ids[limit]].createdAt)
  {
    var rows := Rows(jobs, ids);
    var p := Trimmed(rows, limit);
    var kept := if |ids| > limit then ids[..limit] else ids;
    assert p.jobs == Rows(jobs, kept) by {
      if |ids| > limit {
        assert rows[limit + 1..] == [];
      }
    }
    forall i | 0 <= i < |kept|
      ensures p.jobs[i].id == kept[i]
    {
      assert kept[i] in jobs && RowValid(kept[i], jobs[kept[i]]);
    }
  }

  /** The paginated list path of getJobs. */
  method ListJobs(db: Db, userId: UserId, userRole: string, cursor: Option<int>, limit: nat, status: Option<string>)
    returns (page: Page)
    requires db.Valid()
    ensures exists ids :: TopRows(db.jobs, ListIds(db.jobs, userId, userRole, cursor, status), limit + 1, ids)
                          && page == Trimmed(Rows(db.jobs, ids), limit)
  {
    var clauses := WhereClauses(userId, userRole, cursor, status);
    var matching := set id | id in db.jobs && SatisfiesAll(db.jobs[id], clauses);
    assert matching == ListIds(db.jobs, userId, userRole, cursor, status);
    var ids := SelectNewest(db.jobs, matching, limit + 1);
    var rows := Rows(db.jobs, ids);
    var nextCursor := None;
    if |rows| > limit {
      nextCursor := Some(rows[limit].createdAt);
      rows := rows[..limit] + rows[limit + 1..];
    }
    page := Page(rows, nextCursor);
    assert page == Trimmed(Rows(db.jobs, ids), limit);
  }

  /** getJobs. With a truthy `jobId` it looks up that one job: no job gives
      an empty page, someone else's job (for a non-admin) a 403, otherwise
      the job itself. Without one it lists the newest `limit` matching rows,
      ordered by created_at then id, both descending. The JSON decoding of
      the returned rows is not modelled: the rows are returned as
      stored. */
  method GetJobs(db: Db, userId: UserId, userRole: string, jobId: Option<string>,
                 cursor: Option<int>, limit: nat, status: Option<string>)
    returns (r: Result<Page>)
    requires db.Valid()
    ensures Present(jobId) && jobId.value !in db.jobs ==> r == Ok(Page([], None))
    ensures Present(jobId) && jobId.value in db.jobs ==>
              if userRole != AdminRole && db.jobs[jobId.value].ownerId != userId
              then r == Err(HttpError(403, NotAuthorisedMessage))
              else r == Ok(Page([db.jobs[jobId.value]], None))
    ensures !Present(jobId) ==>
              && r.Ok?
              && (exists ids :: TopRows(db.jobs, ListIds(db.jobs, userId, userRole, cursor, status), limit + 1, ids)
                                && r.value == Trimmed(Rows(db.jobs, ids), limit))
              && |r.value.jobs| <= limit
              && (forall i :: 0 <= i < |r.value.jobs| ==>
                    && r.value.jobs[i].id in db.jobs && db.jobs[r.value.jobs[i].id] == r.value.jobs[i]
                    && Listed(r.value.jobs[i], userId, userRole, cursor, status))
              && (forall i, j :: 0 <= i < j < |r.value.jobs| ==> Newer(db.jobs, r.value.jobs[i].id, r.value.jobs[j].id))
              && (r.value.nextCursor.Some? <==> |ListIds(db.jobs, userId, userRole, cursor, status)| > limit)
  {
    if Present(jobId) {
      if jobId.value !in db.jobs {
        return Ok(Page([], None));
      }
      var row := db.jobs[jobId.value];
      if userRole != AdminRole && row.ownerId != userId {
        return Err(HttpError(403, NotAuthorisedMessage));
      }
      return Ok(Page([row], None));
    }
    var page := ListJobs(db, userId, userRole, cursor, limit, status);
    ghost var ids :| TopRows(db.jobs, ListIds(db.jobs, userId, userRole, cursor, status), limit + 1, ids)
                     && page == Trimmed(Rows(db.jobs, ids), limit);
    TrimmedPage(db.jobs, userId, userRole, cursor, status, limit, ids);
    r := Ok(page);
  }

  // ---------------------------------------------------------------------
  // Paging

  /** When no two jobs share a created_at, the row a page drops (whose
      created_at is the next cursor) is the first row of the next page, and
      no row of the page comes again on the next one. A created_at of 0
      would be ignored as a cursor, hence `t != 0`. */
  lemma NextPageStartsAtDroppedRow(jobs: map<JobId, Job>, userId: UserId, userRole: string,
                                   cursor: Option<int>, status: Option<string>, limit: nat,
                                   ids1: seq<JobId>, ids2: seq<JobId>)
    requires TableValid(jobs)
    requires forall x, y :: x in jobs && y in jobs && x != y ==> jobs[x].createdAt != jobs[y].createdAt
    requires TopRows(jobs, ListIds(jobs, userId, userRole, cursor, status), limit + 1, ids1)
    requires |ids1| > limit && jobs[ids1[limit]].createdAt != 0
    requires TopRows(jobs, ListIds(jobs, userId, userRole, Some(jobs[ids1[limit]].createdAt), status), limit + 1, ids2)
    ensures |ids2| > 0 && ids2[0] == ids1[limit]
    ensures forall i :: 0 <= i < limit ==> ids1[i] !in ids2
  {
    var s1 := ListIds(jobs, userId, userRole, cursor, status);
    var d := ids1[limit];
    var t := jobs[d].createdAt;
    var s2 := ListIds(jobs, userId, userRole, Some(t), status);
    // Every row the first page keeps is strictly newer than the dropped one.
    forall i | 0 <= i < limit
      ensures jobs[ids1[i]].createdAt > t && ids1[i] !in s2
    {
      assert Newer(jobs, ids1[i], d);
      NewerIrreflexive(jobs, d);
    }
    assert d in s2;
    // The dropped row is newer than every other candidate of the next page.
    forall y | y in s2 && y != d
      ensures Newer(jobs, d, y)
    {
      assert y in s1;
    }
    assert |ids2| > 0;
    if d in ids2 {
      var j :| 0 <= j < |ids2| && ids2[j] == d;
      if j > 0 {
        assert Newer(jobs, ids2[0], d);
        NewerAsymmetric(jobs, ids2[0], d);
      }
    }
  }

  /** Two pending jobs of one owner created in the same millisecond. */
  const TiedJobs: map<JobId, Job> := map[
    "a" := NewJob("a", "u", "sleep", None, DefaultMaxRetries, None, 5),
    "b" := NewJob("b", "u", "sleep", None, DefaultMaxRetries, None, 5)]

  /** With a created_at shared across the page boundary the inclusive cursor
      does not advance: listing one job per page, the next page (fetched with
      the returned cursor) is the first page again, so paging never reaches
      job "a". */
  lemma TiedPagesRepeat(ids1: seq<JobId>, ids2: seq<JobId>)
    requires TopRows(TiedJobs, ListIds(TiedJobs, "u", AdminRole, None, None), 2, ids1)
    requires TopRows(TiedJobs, ListIds(TiedJobs, "u", AdminRole, Some(5), None), 2, ids2)
    ensures Trimmed(Rows(TiedJobs, ids1), 1) == Page([TiedJobs["b"]], Some(5))
    ensures Trimmed(Rows(TiedJobs, ids2), 1) == Trimmed(Rows(TiedJobs, ids1), 1)
  {
    var s := ListIds(TiedJobs, "u", AdminRole, None, None);
    assert s == {"a", "b"} by {
      assert Listed(TiedJobs["a"], "u", AdminRole, None, None);
      assert Listed(TiedJobs["b"], "u", AdminRole, None, None);
    }
    assert ListIds(TiedJobs, "u", AdminRole, Some(5), None) == s by {
      assert Listed(TiedJobs["a"], "u", AdminRole, Some(5), None);
      assert Listed(TiedJobs["b"], "u", AdminRole, Some(5), None);
    }
    assert StrLess("a", "b");
    assert Newer(TiedJobs, "b", "a");
    var expected := ["b", "a"];
    assert TopRows(TiedJobs, s, 2, expected);
    TopRowsUnique(TiedJobs, s, 2, ids1, expected);
    TopRowsUnique(TiedJobs, s, 2, ids2, expected);
    assert Rows(TiedJobs, ids1) == [TiedJobs["b"], TiedJobs["a"]];
  }

  // ---------------------------------------------------------------------
  // getReport

  /** The six SUM(CASE ...) columns. SUM over an empty table is NULL. */
  datatype Report = Report(
    submitted: Option<nat>,
    processing: Option<nat>,
    done: Option<nat>,
    failed: Option<nat>,
    dlqWithRedrive: Option<nat>,
    dlqWithoutRedrive: Option<nat>)

  function StatusIds(jobs: map<JobId, Job>, s: Status): set<JobId> {
    set id | id in jobs && jobs[id].status == s
  }

  /** Dead-lettered rows with (`redriven`) or without a redrive behind them. */
  function DlqIds(jobs: map<JobId, Job>, redriven: bool): set<JobId> {
    set id | id in jobs && jobs[id].status == Dlq && (Redrives(jobs[id]) > 0 <==> redriven)
  }

  function Sum(jobs: map<JobId, Job>, count: nat): Option<nat> {
    if jobs == map[] then None else Some(count)
  }

  function GetReport(jobs: map<JobId, Job>): (r: Report)
    ensures jobs == map[] <==> r == Report(None, None, None, None, None, None)
    ensures jobs != map[] ==>
              && r.submitted.Some? && r.processing.Some? && r.done.Some?
              && r.failed.Some? && r.dlqWithRedrive.Some? && r.dlqWithoutRedrive.Some?
  {
    Report(Sum(jobs, |StatusIds(jobs, Pending)|), Sum(jobs, |StatusIds(jobs, Running)|),
           Sum(jobs, |StatusIds(jobs, Done)|), Sum(jobs, |StatusIds(jobs, Failed)|),
           Sum(jobs, |DlqIds(jobs, true)|), Sum(jobs, |DlqIds(jobs, false)|))
  }

  lemma DisjointUnionSize(a: set<JobId>, b: set<JobId>)
    requires a * b == {}
    ensures |a + b| == |a| + |b|
  {
  }

  /** The dead letters split by whether they were redriven. */
  lemma DlqSplit(jobs: map<JobId, Job>)
    ensures StatusIds(jobs, Dlq) == DlqIds(jobs, true) + DlqIds(jobs, false)
    ensures |StatusIds(jobs, Dlq)| == |DlqIds(jobs, true)| + |DlqIds(jobs, false)|
  {
    assert DlqIds(jobs, true) * DlqIds(jobs, false) == {};
    assert StatusIds(jobs, Dlq) == DlqIds(jobs, true) + DlqIds(jobs, false);
    DisjointUnionSize(DlqIds(jobs, true), DlqIds(jobs, false));
  }

  lemma StatusIdsDisjoint(jobs: map<JobId, Job>, s1: Status, s2: Status)
    requires s1 != s2
    ensures StatusIds(jobs, s1) * StatusIds(jobs, s2) == {}
  {
  }

  /** Every job has exactly one of the five statuses. */
  lemma StatusCover(jobs: map<JobId, Job>)
    ensures jobs.Keys == StatusIds(jobs, Pending) + StatusIds(jobs, Running) + StatusIds(jobs, Done)
                         + StatusIds(jobs, Failed) + StatusIds(jobs, Dlq)
  {
    forall id | id in jobs
      ensures id in StatusIds(jobs, jobs[id].status)
    {
    }
  }

  lemma StatusSplit(jobs: map<JobId, Job>)
    ensures |jobs| == |StatusIds(jobs, Pending)| + |StatusIds(jobs, Running)| + |StatusIds(jobs, Done)|
                      + |StatusIds(jobs, Failed)| + |StatusIds(jobs, Dlq)|
  {
    var p, ru, dn := StatusIds(jobs, Pending), StatusIds(jobs, Running), StatusIds(jobs, Done);
    var f, dl := StatusIds(jobs, Failed), StatusIds(jobs, Dlq);
    StatusIdsDisjoint(jobs, Pending, Running);
    DisjointUnionSize(p, ru);
    StatusIdsDisjoint(jobs, Pending, Done);
    StatusIdsDisjoint(jobs, Running, Done);
    DisjointUnionSize(p + ru, dn);
    StatusIdsDisjoint(jobs, Pending, Failed);
    StatusIdsDisjoint(jobs, Running, Failed);
    StatusIdsDisjoint(jobs, Done, Failed);
    DisjointUnionSize(p + ru + dn, f);
    StatusIdsDisjoint(jobs, Pending, Dlq);
    StatusIdsDisjoint(jobs, Running, Dlq);
    StatusIdsDisjoint(jobs, Done, Dlq);
    StatusIdsDisjoint(jobs, Failed, Dlq);
    DisjointUnionSize(p + ru + dn + f, dl);
    StatusCover(jobs);
  }

  /** The report splits the dead letters by redrive, and its six counts
      partition the table: every job is counted exactly once. */
  lemma ReportPartitions(jobs: map<JobId, Job>)
    requires jobs != map[]
    ensures GetReport(jobs).dlqWithRedrive.value + GetReport(jobs).dlqWithoutRedrive.value
            == |StatusIds(jobs, Dlq)|
    ensures GetReport(jobs).submitted.value + GetReport(jobs).processing.value + GetReport(jobs).done.value
            + GetReport(jobs).failed.value + GetReport(jobs).dlqWithRedrive.value
            + GetReport(jobs).dlqWithoutRedrive.value == |jobs|
  {
    DlqSplit(jobs);
    StatusSplit(jobs);
  }
}
