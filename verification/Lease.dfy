/**
 The leased job row shared by the generation, candidate and fulfilment queues,
 and the row updates their statements perform. Times are in milliseconds.
 */
module Lease {

  type WorkerId = string

  datatype Option<+T> = None | Some(value: T)

  datatype Status = PENDING | RUNNING | SUCCEEDED | FAILED

  datatype Row = Row(
    status: Status,
    attempts: nat,
    availableAt: int,
    lockedBy: Option<WorkerId>,
    leaseExpiresAt: Option<int>,
    lastError: Option<string>)

  /** What every queue is configured with; all workers share it. */
  datatype Config = Config(leaseMs: nat, maxAttempts: nat)

  function Enqueued(availableAt: int): Row {
    Row(PENDING, 0, availableAt, None, None, None)
  }

  predicate Owned(row: Row, worker: WorkerId) {
    row.status == RUNNING && row.lockedBy == Some(worker)
  }

  predicate Live(row: Row, now: int) {
    row.leaseExpiresAt.Some? && row.leaseExpiresAt.value > now
  }

  /** The claim guard: a due PENDING row, or a RUNNING row whose lease ran out. */
  predicate Claimable(row: Row, now: int, maxAttempts: nat) {
    || (row.status == PENDING && row.attempts < maxAttempts && row.availableAt <= now)
    || (row.status == RUNNING && row.attempts <= maxAttempts
        && row.leaseExpiresAt.Some? && row.leaseExpiresAt.value <= now)
  }

  /** A claim; `noteExpiry` says whether taking over an expired lease is recorded in `lastError`. */
  function Claimed(row: Row, worker: WorkerId, now: int, leaseMs: nat, noteExpiry: bool): Row {
    Row(RUNNING, row.attempts + 1, row.availableAt, Some(worker), Some(now + leaseMs),
        if noteExpiry && row.status == RUNNING then Some("LEASE_EXPIRED") else row.lastError)
  }

  function Extended(row: Row, now: int, leaseMs: nat): Row {
    row.(leaseExpiresAt := Some(now + leaseMs))
  }

  function Requeued(row: Row, availableAt: int, error: string): Row {
    Row(PENDING, row.attempts, availableAt, None, None, Some(error))
  }

  /** A requeue that gives the attempt back. */
  function Deferred(row: Row, availableAt: int, error: string): Row {
    Row(PENDING, if row.attempts == 0 then 0 else row.attempts - 1, availableAt, None, None, Some(error))
  }

  function Closed(row: Row, status: Status, lastError: Option<string>): Row {
    Row(status, row.attempts, row.availableAt, None, None, lastError)
  }

  /** What every reachable row satisfies: the lock columns go with RUNNING, the attempt
      counter never passes the exhausting claim, and no PENDING row is out of attempts. */
  ghost predicate Consistent(row: Row, maxAttempts: nat) {
    && (row.status == RUNNING <==> row.lockedBy.Some?)
    && (row.status == RUNNING <==> row.leaseExpiresAt.Some?)
    && (row.status == RUNNING ==> 1 <= row.attempts)
    && row.attempts <= maxAttempts + 1
    && (row.status == PENDING ==> row.attempts < maxAttempts)
  }
}
