/** The three shapes of SELECT the core issues against the jobs table:
    ids matching a predicate in no particular order, the oldest matching ids
    (ORDER BY created_at ASC LIMIT n) and the newest matching ids
    (ORDER BY created_at DESC, id DESC LIMIT n). Each is a loop over the
    candidate set, specified by the rows SQL returns. */
module Query {
  import opened Types

  predicate Distinct(ids: seq<JobId>) {
    forall i, j :: 0 <= i < j < |ids| ==> ids[i] != ids[j]
  }

  function ToSet(ids: seq<JobId>): set<JobId> {
    set i | 0 <= i < |ids| :: ids[i]
  }

  // ---------------------------------------------------------------------
  // Text order of ids (SQLite's BINARY collation on UTF-8, which orders
  // strings as sequences of code points).

  predicate StrLess(a: string, b: string) {
    |b| > 0 && (|a| == 0 || a[0] < b[0] || (a[0] == b[0] && StrLess(a[1..], b[1..])))
  }

  lemma {:induction false} StrLessIrreflexive(a: string)
    ensures !StrLess(a, a)
  {
    if |a| > 0 {
      StrLessIrreflexive(a[1..]);
    }
  }

  lemma {:induction false} StrLessTransitive(a: string, b: string, c: string)
    requires StrLess(a, b) && StrLess(b, c)
    ensures StrLess(a, c)
  {
    if |a| > 0 && a[0] == b[0] && b[0] == c[0] {
      StrLessTransitive(a[1..], b[1..], c[1..]);
    }
  }

  lemma {:induction false} StrLessTotal(a: string, b: string)
    requires a != b
    ensures StrLess(a, b) || StrLess(b, a)
  {
    if |a| > 0 && |b| > 0 && a[0] == b[0] {
      assert a == [a[0]] + a[1..] && b == [b[0]] + b[1..];
      StrLessTotal(a[1..], b[1..]);
    }
  }

  // ---------------------------------------------------------------------
  // ORDER BY created_at DESC, id DESC: `Newer(jobs, x, y)` when row x is
  // listed before row y.

  predicate Newer(jobs: map<JobId, Job>, x: JobId, y: JobId) {
    && x in jobs && y in jobs
    && (jobs[x].createdAt > jobs[y].createdAt
        || (jobs[x].createdAt == jobs[y].createdAt && StrLess(y, x)))
  }

  lemma NewerIrreflexive(jobs: map<JobId, Job>, x: JobId)
    ensures !Newer(jobs, x, x)
  {
    StrLessIrreflexive(x);
  }

  lemma NewerTransitive(jobs: map<JobId, Job>, x: JobId, y: JobId, z: JobId)
    requires Newer(jobs, x, y) && Newer(jobs, y, z)
    ensures Newer(jobs, x, z)
  {
    if jobs[x].createdAt == jobs[y].createdAt == jobs[z].createdAt {
      StrLessTransitive(z, y, x);
    }
  }

  lemma NewerTotal(jobs: map<JobId, Job>, x: JobId, y: JobId)
    requires x in jobs && y in jobs && x != y
    ensures Newer(jobs, x, y) || Newer(jobs, y, x)
  {
    StrLessTotal(x, y);
  }

  lemma NewerAsymmetric(jobs: map<JobId, Job>, x: JobId, y: JobId)
    requires Newer(jobs, x, y)
    ensures !Newer(jobs, y, x)
  {
    if Newer(jobs, y, x) {
      NewerTransitive(jobs, x, y, x);
      NewerIrreflexive(jobs, x);
    }
  }

  /** `ids` is what `... ORDER BY created_at DESC, id DESC LIMIT k` returns
      from the candidate set `s`: the min(k, |s|) newest candidates, newest
      first, and every candidate left out comes after all of them. */
  ghost predicate TopRows(jobs: map<JobId, Job>, s: set<JobId>, k: nat, ids: seq<JobId>) {
    && |ids| == Min(k, |s|)
    && (forall i :: 0 <= i < |ids| ==> ids[i] in s)
    && (forall i, j :: 0 <= i < j < |ids| ==> Newer(jobs, ids[i], ids[j]))
    && (forall x, i :: x in s && x !in ids && 0 <= i < |ids| ==> Newer(jobs, ids[i], x))
  }

  /** Where `a` and `b` agree before index i and differ at i, b's row there
      is newer than a's. */
  lemma TopRowsFirstDifference(jobs: map<JobId, Job>, s: set<JobId>, k: nat, a: seq<JobId>, b: seq<JobId>, i: nat)
    requires TopRows(jobs, s, k, a) && TopRows(jobs, s, k, b)
    requires i < |a| && forall t :: 0 <= t < i ==> a[t] == b[t]
    requires a[i] != b[i]
    ensures Newer(jobs, b[i], a[i])
  {
    if a[i] in b {
      var j :| 0 <= j < |b| && b[j] == a[i];
      if j < i {
        assert Newer(jobs, a[j], a[i]);
        NewerIrreflexive(jobs, a[i]);
      }
    }
  }

  /** Since the order is strict and total, the query result is determined:
      two results of the same query are equal. */
  lemma TopRowsUnique(jobs: map<JobId, Job>, s: set<JobId>, k: nat, a: seq<JobId>, b: seq<JobId>)
    requires TopRows(jobs, s, k, a) && TopRows(jobs, s, k, b)
    ensures a == b
  {
    var i := 0;
    while i < |a|
      invariant 0 <= i <= |a|
      invariant forall t :: 0 <= t < i ==> a[t] == b[t]
    {
      if a[i] != b[i] {
        TopRowsFirstDifference(jobs, s, k, a, b, i);
        TopRowsFirstDifference(jobs, s, k, b, a, i);
        NewerAsymmetric(jobs, b[i], a[i]);
      }
      i := i + 1;
    }
  }

  /** The newest id of a non-empty candidate set. */
  method NewestIn(jobs: map<JobId, Job>, s: set<JobId>) returns (m: JobId)
    requires s != {} && s <= jobs.Keys
    ensures m in s
    ensures forall x :: x in s && x != m ==> Newer(jobs, m, x)
  {
    m :| m in s;
    var rest := s - {m};
    while rest != {}
      invariant rest <= s && m in s && m !in rest
      invariant forall x :: x in s - rest && x != m ==> Newer(jobs, m, x)
      decreases rest
    {
      var x :| x in rest;
      if Newer(jobs, x, m) {
        forall y | y in s - rest && y != x
          ensures Newer(jobs, x, y)
        {
          if y != m {
            NewerTransitive(jobs, x, m, y);
          }
        }
        m := x;
      } else {
        NewerTotal(jobs, x, m);
      }
      rest := rest - {x};
    }
  }

  /** SELECT ... WHERE <s> ORDER BY created_at DESC, id DESC LIMIT k */
  method SelectNewest(jobs: map<JobId, Job>, s: set<JobId>, k: nat) returns (ids: seq<JobId>)
    requires s <= jobs.Keys
    ensures TopRows(jobs, s, k, ids)
  {
    ids := [];
    var rest := s;
    while |ids| < k && rest != {}
      invariant rest <= s
      invariant forall x :: x in s ==> (x in rest <==> x !in ids)
      invariant |ids| + |rest| == |s|
      invariant |ids| <= k
      invariant forall i :: 0 <= i < |ids| ==> ids[i] in s
      invariant forall i, j :: 0 <= i < j < |ids| ==> Newer(jobs, ids[i], ids[j])
      invariant forall x, i :: x in rest && 0 <= i < |ids| ==> Newer(jobs, ids[i], x)
      decreases rest
    {
      var m := NewestIn(jobs, rest);
      ids := ids + [m];
      rest := rest - {m};
    }
  }

  // ---------------------------------------------------------------------
  // ORDER BY created_at ASC LIMIT n, ties in no particular order.

  /** `ids` is what `... ORDER BY created_at ASC LIMIT limit` may return from
      the candidate set `s`: min(limit, |s|) distinct candidates, oldest
      first, and no candidate left out is strictly older than a chosen one. */
  ghost predicate OldestFirst(jobs: map<JobId, Job>, s: set<JobId>, limit: nat, ids: seq<JobId>) {
    && |ids| == Min(limit, |s|)
    && Distinct(ids)
    && (forall i :: 0 <= i < |ids| ==> ids[i] in s && ids[i] in jobs)
    && (forall i, j :: 0 <= i < j < |ids| ==> jobs[ids[i]].createdAt <= jobs[ids[j]].createdAt)
    && (forall x, i :: x in s && x in jobs && x !in ids && 0 <= i < |ids| ==> jobs[ids[i]].createdAt <= jobs[x].createdAt)
  }

  /** An oldest id of a non-empty candidate set. */
  method OldestIn(jobs: map<JobId, Job>, s: set<JobId>) returns (m: JobId)
    requires s != {} && s <= jobs.Keys
    ensures m in s
    ensures forall x :: x in s ==> jobs[m].createdAt <= jobs[x].createdAt
  {
    m :| m in s;
    var rest := s - {m};
    while rest != {}
      invariant rest <= s && m in s
      invariant forall x :: x in s - rest ==> jobs[m].createdAt <= jobs[x].createdAt
      decreases rest
    {
      var x :| x in rest;
      if jobs[x].createdAt < jobs[m].createdAt {
        m := x;
      }
      rest := rest - {x};
    }
  }

  /** SELECT id ... WHERE <s> ORDER BY created_at ASC LIMIT limit */
  method SelectOldest(jobs: map<JobId, Job>, s: set<JobId>, limit: nat) returns (ids: seq<JobId>)
    requires s <= jobs.Keys
    ensures OldestFirst(jobs, s, limit, ids)
  {
    ids := [];
    var rest := s;
    while |ids| < limit && rest != {}
      invariant rest <= s
      invariant forall x :: x in s ==> (x in rest <==> x !in ids)
      invariant |ids| + |rest| == |s|
      invariant |ids| <= limit
      invariant Distinct(ids)
      invariant forall i :: 0 <= i < |ids| ==> ids[i] in s && ids[i] in jobs
      invariant forall i, j :: 0 <= i < j < |ids| ==> jobs[ids[i]].createdAt <= jobs[ids[j]].createdAt
      invariant forall x, i :: x in rest && 0 <= i < |ids| ==> jobs[ids[i]].createdAt <= jobs[x].createdAt
      decreases rest
    {
      var m := OldestIn(jobs, rest);
      ids := ids + [m];
      rest := rest - {m};
    }
  }

  // ---------------------------------------------------------------------
  // SELECT id ... WHERE <s>, in whatever order the engine yields.

  method SelectIds(s: set<JobId>) returns (ids: seq<JobId>)
    ensures Distinct(ids)
    ensures ToSet(ids) == s
    ensures |ids| == |s|
  {
    ids := [];
    var rest := s;
    while rest != {}
      invariant rest <= s
      invariant Distinct(ids)
      invariant forall x :: x in s ==> (x in rest <==> x !in ids)
      invariant forall i :: 0 <= i < |ids| ==> ids[i] in s
      invariant |ids| + |rest| == |s|
      decreases rest
    {
      var x :| x in rest;
      ids := ids + [x];
      rest := rest - {x};
    }
    assert ToSet(ids) == s by {
      forall x | x in s ensures x in ToSet(ids) {
        var i :| 0 <= i < |ids| && ids[i] == x;
      }
    }
  }
}
