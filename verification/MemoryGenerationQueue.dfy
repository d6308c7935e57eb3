/**
 The in-memory generation queue (src/jobs/memory-generation-queue.ts). It performs the same
 guarded updates as the database queue, on jobs kept in order of insertion, and a claim takes
 the claimable job that has been available longest.
 */
module MemoryGenerationQueue {
  import opened Lease
  import opened GenerationDatabase

  datatype MemoryJob = MemoryJob(id: Id, revisionId: Id, row: Row)

  ghost predicate DistinctIds(jobs: seq<MemoryJob>) {
    forall i, k :: 0 <= i < k < |jobs| ==> jobs[i].id != jobs[k].id
  }

  ghost function JobsOf(jobs: seq<MemoryJob>): map<Id, Job>
    requires DistinctIds(jobs)
  {
    map i | 0 <= i < |jobs| :: jobs[i].id := Job(jobs[i].revisionId, jobs[i].row)
  }

  lemma JobAt(jobs: seq<MemoryJob>, i: nat, row: Row)
    requires DistinctIds(jobs) && i < |jobs|
    ensures jobs[i].id in JobsOf(jobs) && JobsOf(jobs)[jobs[i].id] == Job(jobs[i].revisionId, jobs[i].row)
    ensures DistinctIds(jobs[i := jobs[i].(row := row)])
    ensures JobsOf(jobs[i := jobs[i].(row := row)]) == JobsOf(jobs)[jobs[i].id := Job(jobs[i].revisionId, row)]
  {
    var next := jobs[i := jobs[i].(row := row)];
    assert forall k :: 0 <= k < |jobs| ==> next[k].id == jobs[k].id;
    forall id | id in JobsOf(jobs) ensures id in JobsOf(next) {
      var k :| 0 <= k < |jobs| && jobs[k].id == id;
      assert next[k].id == id;
    }
  }

  /** Of the first n jobs, position i holds the one a claim takes: the earliest available, the first inserted among equals. */
  ghost predicate TakenFirst(jobs: seq<MemoryJob>, n: nat, i: nat, now: int, cfg: Config)
    requires n <= |jobs|
  {
    && i < n && Claimable(jobs[i].row, now, cfg.maxAttempts)
    && forall k :: 0 <= k < n && Claimable(jobs[k].row, now, cfg.maxAttempts) ==>
        || jobs[i].row.availableAt < jobs[k].row.availableAt
        || (jobs[i].row.availableAt == jobs[k].row.availableAt && i <= k)
  }

  class MemoryGenerationJobQueue {
    var jobs: seq<MemoryJob>

    ghost predicate Valid()
      reads this
    {
      DistinctIds(jobs)
    }

    /** The queue as the job table of a database. */
    ghost function Contents(): Db
      requires Valid()
      reads this
    {
      Db(map[], map[], map[], JobsOf(jobs), [])
    }

    constructor ()
      ensures Valid() && jobs == []
    {
      jobs := [];
    }

    method ClaimEarliest(worker: WorkerId, now: int, cfg: Config) returns (claimed: Option<(Id, nat)>)
      requires Valid()
      modifies this
      ensures Valid()
      ensures claimed.None? ==> jobs == old(jobs) && forall k :: 0 <= k < |jobs| ==> !Claimable(jobs[k].row, now, cfg.maxAttempts)
      ensures claimed.Some? ==> exists i: nat ::
        && TakenFirst(old(jobs), |old(jobs)|, i, now, cfg)
        && jobs == old(jobs)[i := old(jobs)[i].(row := Claimed(old(jobs)[i].row, worker, now, cfg.leaseMs, false))]
        && claimed.value == (jobs[i].id, jobs[i].row.attempts)
    {
      var best: nat := |jobs|;
      for i := 0 to |jobs|
        invariant best == |jobs| || best < i
        invariant best == |jobs| ==> forall k :: 0 <= k < i ==> !Claimable(jobs[k].row, now, cfg.maxAttempts)
        invariant best < |jobs| ==> TakenFirst(jobs, i, best, now, cfg)
      {
        if Claimable(jobs[i].row, now, cfg.maxAttempts) && (best == |jobs| || jobs[i].row.availableAt < jobs[best].row.availableAt) {
          best := i;
        }
      }
      if best == |jobs| { return None; }
      var row := Claimed(jobs[best].row, worker, now, cfg.leaseMs, false);
      JobAt(jobs, best, row);
      jobs := jobs[best := jobs[best].(row := row)];
      return Some((jobs[best].id, row.attempts));
    }

    /** `jobs.get(id)`: the position of the job, or |jobs|. */
    method Find(id: Id) returns (i: nat)
      requires Valid()
      ensures i <= |jobs|
      ensures i < |jobs| ==> jobs[i].id == id && id in Contents().jobs
                             && Contents().jobs[id] == Job(jobs[i].revisionId, jobs[i].row)
      ensures i == |jobs| ==> id !in Contents().jobs
    {
      i := 0;
      while i < |jobs| && jobs[i].id != id
        invariant 0 <= i <= |jobs|
        invariant forall k :: 0 <= k < i ==> jobs[k].id != id
      {
        i := i + 1;
      }
      if i < |jobs| { JobAt(jobs, i, jobs[i].row); }
    }

    method Extend(id: Id, worker: WorkerId, now: int, cfg: Config) returns (ok: bool)
      requires Valid()
      modifies this
      ensures Valid() && (Contents(), ok) == ExtendLease(old(Contents()), id, worker, now, cfg)
    {
      var i := Find(id);
      if i == |jobs| || jobs[i].row.status != RUNNING || jobs[i].row.lockedBy != Some(worker)
         || jobs[i].row.leaseExpiresAt.None? || jobs[i].row.leaseExpiresAt.value <= now { return false; }
      JobAt(jobs, i, jobs[i].row.(leaseExpiresAt := Some(now + cfg.leaseMs)));
      jobs := jobs[i := jobs[i].(row := jobs[i].row.(leaseExpiresAt := Some(now + cfg.leaseMs)))];
      return true;
    }

    method Requeue(id: Id, worker: WorkerId, now: int, delayMs: int, error: string) returns (ok: bool)
      requires Valid()
      modifies this
      ensures Valid() && (Contents(), ok) == Retry(old(Contents()), id, worker, now + delayMs, error)
    {
      var i := Find(id);
      if i == |jobs| || jobs[i].row.status != RUNNING || jobs[i].row.lockedBy != Some(worker) { return false; }
      JobAt(jobs, i, Requeued(jobs[i].row, now + delayMs, error));
      jobs := jobs[i := jobs[i].(row := Requeued(jobs[i].row, now + delayMs, error))];
      return true;
    }

    method AckSuccess(id: Id, worker: WorkerId) returns (ok: bool)
      requires Valid()
      modifies this
      ensures Valid() && (Contents(), ok) == AcknowledgeSuccess(old(Contents()), id, worker)
    {
      var i := Find(id);
      if i == |jobs| || (jobs[i].row.status != SUCCEEDED && (jobs[i].row.status != RUNNING || jobs[i].row.lockedBy != Some(worker))) {
        return false;
      }
      JobAt(jobs, i, Closed(jobs[i].row, SUCCEEDED, jobs[i].row.lastError));
      jobs := jobs[i := jobs[i].(row := Closed(jobs[i].row, SUCCEEDED, jobs[i].row.lastError))];
      return true;
    }

    method AckFailure(id: Id, worker: WorkerId, error: string) returns (ok: bool)
      requires Valid()
      modifies this
      ensures Valid() && (Contents(), ok) == AcknowledgeFailure(old(Contents()), id, worker, error)
    {
      var i := Find(id);
      if i == |jobs| || (jobs[i].row.status != FAILED && (jobs[i].row.status != RUNNING || jobs[i].row.lockedBy != Some(worker))) {
        return false;
      }
      JobAt(jobs, i, Closed(jobs[i].row, FAILED, Some(error)));
      jobs := jobs[i := jobs[i].(row := Closed(jobs[i].row, FAILED, Some(error)))];
      return true;
    }
  }
}
