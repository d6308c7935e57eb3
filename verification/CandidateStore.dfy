/**
 The in-memory candidate job store (src/candidates/memory-job-store.ts): a lease store
 whose deferrals give the attempt back. `Table` is the view the worker protocol uses.
 */
module CandidateStore {
  import opened Lease

  type Id = string
  type Snapshot = string

  datatype Job = Job(id: Id, revisionId: Id, row: Row)

  datatype Table = Table(rows: map<Id, Row>, completed: map<Id, Snapshot>)

  predicate Owns(t: Table, job: Id, worker: WorkerId) {
    job in t.rows && Owned(t.rows[job], worker)
  }

  predicate CanClaim(t: Table, job: Id, now: int, cfg: Config) {
    job in t.rows && Claimable(t.rows[job], now, cfg.maxAttempts)
  }

  function WithRow(t: Table, job: Id, row: Row): Table {
    t.(rows := t.rows[job := row])
  }

  function Claim(t: Table, job: Id, worker: WorkerId, now: int, cfg: Config): Table
    requires CanClaim(t, job, now, cfg)
  {
    WithRow(t, job, Claimed(t.rows[job], worker, now, cfg.leaseMs, true))
  }

  function ExtendLease(t: Table, job: Id, worker: WorkerId, now: int, cfg: Config): (Table, bool) {
    if Owns(t, job, worker) && Live(t.rows[job], now) then (WithRow(t, job, Extended(t.rows[job], now, cfg.leaseMs)), true)
    else (t, false)
  }

  /** The one update that is fenced by the lease as well as by the owner. */
  function Complete(t: Table, job: Id, worker: WorkerId, now: int, snapshot: Snapshot): (Table, bool) {
    if Owns(t, job, worker) && Live(t.rows[job], now)
    then (WithRow(t, job, Closed(t.rows[job], SUCCEEDED, t.rows[job].lastError)).(completed := t.completed[job := snapshot]), true)
    else (t, false)
  }

  function Retry(t: Table, job: Id, worker: WorkerId, availableAt: int, error: string): (Table, bool) {
    if Owns(t, job, worker) then (WithRow(t, job, Requeued(t.rows[job], availableAt, error)), true) else (t, false)
  }

  function Defer(t: Table, job: Id, worker: WorkerId, availableAt: int, error: string): (Table, bool) {
    if Owns(t, job, worker) then (WithRow(t, job, Deferred(t.rows[job], availableAt, error)), true) else (t, false)
  }

  function Fail(t: Table, job: Id, worker: WorkerId, error: string): (Table, bool) {
    if Owns(t, job, worker) then (WithRow(t, job, Closed(t.rows[job], FAILED, Some(error))), true) else (t, false)
  }

  const WAITING_FOR_CONNECTION := "WAITING_FOR_PRINTFUL_CONNECTION"
  const WAITING_FOR_RATE_LIMIT := "WAITING_FOR_PRINTFUL_RATE_LIMIT"

  ghost predicate DistinctIds(jobs: seq<Job>) {
    forall i, k :: 0 <= i < k < |jobs| ==> jobs[i].id != jobs[k].id
  }

  ghost function RowsOf(jobs: seq<Job>): map<Id, Row>
    requires DistinctIds(jobs)
  {
    map i | 0 <= i < |jobs| :: jobs[i].id := jobs[i].row
  }

  lemma RowsAt(jobs: seq<Job>, i: nat, row: Row)
    requires DistinctIds(jobs) && i < |jobs|
    ensures jobs[i].id in RowsOf(jobs) && RowsOf(jobs)[jobs[i].id] == jobs[i].row
    ensures DistinctIds(jobs[i := jobs[i].(row := row)])
    ensures RowsOf(jobs[i := jobs[i].(row := row)]) == RowsOf(jobs)[jobs[i].id := row]
  {
    var next := jobs[i := jobs[i].(row := row)];
    assert forall k :: 0 <= k < |jobs| ==> next[k].id == jobs[k].id;
    forall id | id in RowsOf(jobs) ensures id in RowsOf(next) {
      var k :| 0 <= k < |jobs| && jobs[k].id == id;
      assert next[k].id == id;
    }
  }

  lemma IdOf(jobs: seq<Job>, k: nat)
    requires DistinctIds(jobs) && k < |jobs|
    ensures jobs[k].id in RowsOf(jobs) && RowsOf(jobs)[jobs[k].id] == jobs[k].row
  {
  }

  lemma DistinctAppended(jobs: seq<Job>, job: Job)
    requires DistinctIds(jobs) && job.id !in RowsOf(jobs)
    ensures DistinctIds(jobs + [job])
  {
    assert forall k :: 0 <= k < |jobs| ==> jobs[k].id in RowsOf(jobs);
  }

  lemma RowAppended(jobs: seq<Job>, job: Job)
    requires DistinctIds(jobs) && job.id !in RowsOf(jobs)
    ensures DistinctIds(jobs + [job]) && RowsOf(jobs + [job]) == RowsOf(jobs)[job.id := job.row]
  {
    DistinctAppended(jobs, job);
    var next := jobs + [job];
    IdOf(next, |jobs|);
    forall id | id in RowsOf(jobs) ensures id in RowsOf(next) && RowsOf(next)[id] == RowsOf(jobs)[id] {
      var k :| 0 <= k < |jobs| && jobs[k].id == id;
      IdOf(jobs, k);
      IdOf(next, k);
    }
    forall id | id in RowsOf(next) ensures id in RowsOf(jobs) || id == job.id {
      var k :| 0 <= k < |next| && next[k].id == id;
      if k < |jobs| { IdOf(jobs, k); }
    }
    hide DistinctIds;
  }

  class MemoryCandidateJobStore {
    var jobs: seq<Job>
    var completed: map<Id, Snapshot>

    ghost predicate Valid()
      reads this
    {
      DistinctIds(jobs)
    }

    ghost function Contents(): Table
      requires Valid()
      reads this
    {
      Table(RowsOf(jobs), completed)
    }

    constructor ()
      ensures Valid() && Contents() == Table(map[], map[])
    {
      jobs, completed := [], map[];
      new;
      assert RowsOf(jobs) == map[];
    }

    /** Ids are primary keys: callers enqueue a job once. */
    method Enqueue(id: Id, revisionId: Id, now: int)
      requires Valid() && id !in Contents().rows
      modifies this
      ensures Valid() && Contents() == old(Contents()).(rows := old(Contents()).rows[id := Enqueued(now)])
    {
      RowAppended(jobs, Job(id, revisionId, Enqueued(now)));
      hide RowsOf, DistinctIds;
      jobs := jobs + [Job(id, revisionId, Enqueued(now))];
    }

    /** Takes the first claimable job in the order of insertion. */
    method ClaimFirst(worker: WorkerId, now: int, cfg: Config) returns (claimed: Option<(Id, nat)>)
      requires Valid()
      modifies this
      ensures Valid()
      ensures claimed.None? ==> Contents() == old(Contents()) && forall id :: !CanClaim(Contents(), id, now, cfg)
      ensures claimed.Some? ==>
        && CanClaim(old(Contents()), claimed.value.0, now, cfg)
        && Contents() == Claim(old(Contents()), claimed.value.0, worker, now, cfg)
        && claimed.value.1 == Contents().rows[claimed.value.0].attempts
      ensures claimed.Some? ==> exists i :: 0 <= i < |old(jobs)| && old(jobs)[i].id == claimed.value.0
                                      && forall k :: 0 <= k < i ==> !Claimable(old(jobs)[k].row, now, cfg.maxAttempts)
    {
      var i := 0;
      while i < |jobs| && !Claimable(jobs[i].row, now, cfg.maxAttempts)
        invariant 0 <= i <= |jobs|
        invariant forall k :: 0 <= k < i ==> !Claimable(jobs[k].row, now, cfg.maxAttempts)
      {
        i := i + 1;
      }
      if i == |jobs| { return None; }
      var job := jobs[i];
      var row := Claimed(job.row, worker, now, cfg.leaseMs, true);
      RowsAt(jobs, i, row);
      jobs := jobs[i := job.(row := row)];
      return Some((job.id, row.attempts));
    }

    /** `owned`: the index of the job if `worker` holds its lock, and |jobs| otherwise. */
    method FindOwned(id: Id, worker: WorkerId) returns (i: nat)
      requires Valid()
      ensures i <= |jobs|
      ensures i < |jobs| ==> jobs[i].id == id && Owned(jobs[i].row, worker) && Owns(Contents(), id, worker)
      ensures i == |jobs| ==> !Owns(Contents(), id, worker)
    {
      i := 0;
      while i < |jobs| && !(jobs[i].id == id && jobs[i].row.status == RUNNING && jobs[i].row.lockedBy == Some(worker))
        invariant 0 <= i <= |jobs|
        invariant forall k :: 0 <= k < i ==> !(jobs[k].id == id && Owned(jobs[k].row, worker))
      {
        i := i + 1;
      }
      if i < |jobs| { RowsAt(jobs, i, jobs[i].row); }
    }

    method Extend(id: Id, worker: WorkerId, now: int, cfg: Config) returns (ok: bool)
      requires Valid()
      modifies this
      ensures Valid() && (Contents(), ok) == ExtendLease(old(Contents()), id, worker, now, cfg)
    {
      var i := FindOwned(id, worker);
      if i == |jobs| { return false; }
      RowsAt(jobs, i, jobs[i].row.(leaseExpiresAt := Some(now + cfg.leaseMs)));
      if jobs[i].row.leaseExpiresAt.None? || jobs[i].row.leaseExpiresAt.value <= now { return false; }
      jobs := jobs[i := jobs[i].(row := jobs[i].row.(leaseExpiresAt := Some(now + cfg.leaseMs)))];
      return true;
    }

    method CompleteJob(id: Id, worker: WorkerId, now: int, snapshot: Snapshot) returns (ok: bool)
      requires Valid()
      modifies this
      ensures Valid() && (Contents(), ok) == Complete(old(Contents()), id, worker, now, snapshot)
    {
      var i := FindOwned(id, worker);
      if i == |jobs| { return false; }
      RowsAt(jobs, i, Closed(jobs[i].row, SUCCEEDED, jobs[i].row.lastError));
      if jobs[i].row.leaseExpiresAt.None? || jobs[i].row.leaseExpiresAt.value <= now { return false; }
      jobs := jobs[i := jobs[i].(row := jobs[i].row.(status := SUCCEEDED, lockedBy := None, leaseExpiresAt := None))];
      completed := completed[id := snapshot];
      return true;
    }

    method RetryJob(id: Id, worker: WorkerId, now: int, delayMs: int, error: string) returns (ok: bool)
      requires Valid()
      modifies this
      ensures Valid() && (Contents(), ok) == Retry(old(Contents()), id, worker, now + delayMs, error)
    {
      var i := FindOwned(id, worker);
      if i == |jobs| { return false; }
      RowsAt(jobs, i, Requeued(jobs[i].row, now + delayMs, error));
      jobs := jobs[i := jobs[i].(row := Requeued(jobs[i].row, now + delayMs, error))];
      return true;
    }

    /** `deferConnection` and `deferRateLimit` differ in the recorded reason only. */
    method DeferJob(id: Id, worker: WorkerId, now: int, delayMs: int, reason: string) returns (ok: bool)
      requires Valid()
      modifies this
      ensures Valid() && (Contents(), ok) == Defer(old(Contents()), id, worker, now + delayMs, reason)
    {
      var i := FindOwned(id, worker);
      if i == |jobs| { return false; }
      RowsAt(jobs, i, Deferred(jobs[i].row, now + delayMs, reason));
      jobs := jobs[i := jobs[i].(row := Deferred(jobs[i].row, now + delayMs, reason))];
      return true;
    }

    method FailJob(id: Id, worker: WorkerId, error: string) returns (ok: bool)
      requires Valid()
      modifies this
      ensures Valid() && (Contents(), ok) == Fail(old(Contents()), id, worker, error)
    {
      var i := FindOwned(id, worker);
      if i == |jobs| { return false; }
      RowsAt(jobs, i, Closed(jobs[i].row, FAILED, Some(error)));
      jobs := jobs[i := jobs[i].(row := Closed(jobs[i].row, FAILED, Some(error)))];
      return true;
    }
  }
}
