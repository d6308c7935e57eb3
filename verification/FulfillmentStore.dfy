/**
 The Shopify fulfilment job store (src/fulfillment/shopify-job-store.ts): every update after
 the claim is fenced by the owner and by an unexpired lease.
 */
module FulfillmentStore {
  import opened Lease

  type Id = string

  datatype Job = Job(row: Row, fulfillmentId: Option<string>)

  datatype EventType = CREATED | RECOVERED | FAILED_EVENT

  datatype JobEvent = JobEvent(job: Id, event: EventType, actor: WorkerId, fulfillmentId: Option<string>)

  datatype Table = Table(jobs: map<Id, Job>, events: seq<JobEvent>)

  predicate CanClaim(t: Table, job: Id, now: int, cfg: Config) {
    job in t.jobs && Claimable(t.jobs[job].row, now, cfg.maxAttempts)
  }

  /** The guard of every later update: `status='RUNNING' AND locked_by=$2 AND lease_expires_at>now()`. */
  predicate Holds(t: Table, job: Id, worker: WorkerId, now: int) {
    job in t.jobs && Owned(t.jobs[job].row, worker) && Live(t.jobs[job].row, now)
  }

  function WithRow(t: Table, job: Id, row: Row): Table
    requires job in t.jobs
  {
    t.(jobs := t.jobs[job := t.jobs[job].(row := row)])
  }

  function Claim(t: Table, job: Id, worker: WorkerId, now: int, cfg: Config): Table
    requires CanClaim(t, job, now, cfg)
  {
    WithRow(t, job, Claimed(t.jobs[job].row, worker, now, cfg.leaseMs, false))
  }

  function ExtendLease(t: Table, job: Id, worker: WorkerId, now: int, cfg: Config): (Table, bool) {
    if Holds(t, job, worker, now) then (WithRow(t, job, Extended(t.jobs[job].row, now, cfg.leaseMs)), true) else (t, false)
  }

  function Success(t: Table, job: Id, worker: WorkerId, now: int, fulfillmentId: string, recovered: bool): (Table, bool) {
    if Holds(t, job, worker, now) then
      var row := Closed(t.jobs[job].row, SUCCEEDED, t.jobs[job].row.lastError);
      (Table(t.jobs[job := Job(row, Some(fulfillmentId))],
             t.events + [JobEvent(job, if recovered then RECOVERED else CREATED, worker, Some(fulfillmentId))]), true)
    else (t, false)
  }

  function Retry(t: Table, job: Id, worker: WorkerId, now: int, delayMs: int, error: string): Table {
    if Holds(t, job, worker, now) then WithRow(t, job, Requeued(t.jobs[job].row, now + delayMs, error)) else t
  }

  function Defer(t: Table, job: Id, worker: WorkerId, now: int, delayMs: int, reason: string): Table {
    if Holds(t, job, worker, now) then WithRow(t, job, Deferred(t.jobs[job].row, now + delayMs, reason)) else t
  }

  function Fail(t: Table, job: Id, worker: WorkerId, now: int, error: string): (Table, bool) {
    if Holds(t, job, worker, now) then
      (WithRow(t, job, Closed(t.jobs[job].row, FAILED, Some(error))).(events := t.events + [JobEvent(job, FAILED_EVENT, worker, None)]), true)
    else (t, false)
  }

  const WAITING_FOR_CONNECTION := "WAITING_FOR_SHOPIFY_CONNECTION"
  const WAITING_FOR_RATE_LIMIT := "WAITING_FOR_SHOPIFY_RATE_LIMIT"

  // ---- what the statements promise each other ----

  /** Nothing but the row of one job differs, the history only grows, and nothing changes after a refusal. */
  ghost predicate OneRowOnly(t: Table, next: Table, job: Id, ok: bool) {
    && (!ok ==> next == t)
    && next.jobs.Keys == t.jobs.Keys && t.events <= next.events
    && (forall j :: j in t.jobs && j != job ==> next.jobs[j] == t.jobs[j])
  }

  /** Every update after the claim is accepted exactly from the owner under a live lease, touches that one row,
      and leaves the job without an owner unless it is the heartbeat; a success and a failure record their event. */
  lemma FencedExactly(t: Table, job: Id, worker: WorkerId, now: int, cfg: Config, id: string, recovered: bool, delayMs: int, error: string)
    ensures var (next, ok) := ExtendLease(t, job, worker, now, cfg);
            OneRowOnly(t, next, job, ok) && (ok <==> Holds(t, job, worker, now)) && next.events == t.events
            && (ok ==> Owned(next.jobs[job].row, worker))
    ensures var (next, ok) := Success(t, job, worker, now, id, recovered);
            OneRowOnly(t, next, job, ok) && (ok <==> Holds(t, job, worker, now))
            && (ok ==> next.jobs[job].fulfillmentId == Some(id) && next.events[|t.events|..] == [JobEvent(job, if recovered then RECOVERED else CREATED, worker, Some(id))])
    ensures var (next, ok) := Fail(t, job, worker, now, error);
            OneRowOnly(t, next, job, ok) && (ok <==> Holds(t, job, worker, now))
            && (ok ==> next.jobs[job].fulfillmentId == t.jobs[job].fulfillmentId && next.events[|t.events|..] == [JobEvent(job, FAILED_EVENT, worker, None)])
    ensures forall next :: next in [Retry(t, job, worker, now, delayMs, error), Defer(t, job, worker, now, delayMs, error)] ==>
              OneRowOnly(t, next, job, next != t) && (next != t <==> Holds(t, job, worker, now)) && next.events == t.events
  {
    ExtendFenced(t, job, worker, now, cfg);
    OutcomeFenced(t, job, worker, now, id, recovered, error);
    ReleaseFenced(t, job, worker, now, delayMs, error);
    hide *;
  }

  lemma ExtendFenced(t: Table, job: Id, worker: WorkerId, now: int, cfg: Config)
    ensures var (next, ok) := ExtendLease(t, job, worker, now, cfg);
            OneRowOnly(t, next, job, ok) && (ok <==> Holds(t, job, worker, now)) && next.events == t.events
            && (ok ==> Owned(next.jobs[job].row, worker))
  {
  }

  lemma OutcomeFenced(t: Table, job: Id, worker: WorkerId, now: int, id: string, recovered: bool, error: string)
    ensures var (next, ok) := Success(t, job, worker, now, id, recovered);
            OneRowOnly(t, next, job, ok) && (ok <==> Holds(t, job, worker, now))
            && (ok ==> next.jobs[job].fulfillmentId == Some(id) && next.events[|t.events|..] == [JobEvent(job, if recovered then RECOVERED else CREATED, worker, Some(id))])
    ensures var (next, ok) := Fail(t, job, worker, now, error);
            OneRowOnly(t, next, job, ok) && (ok <==> Holds(t, job, worker, now))
            && (ok ==> next.jobs[job].fulfillmentId == t.jobs[job].fulfillmentId && next.events[|t.events|..] == [JobEvent(job, FAILED_EVENT, worker, None)])
  {
  }

  lemma ReleaseFenced(t: Table, job: Id, worker: WorkerId, now: int, delayMs: int, error: string)
    ensures forall next :: next in [Retry(t, job, worker, now, delayMs, error), Defer(t, job, worker, now, delayMs, error)] ==>
              OneRowOnly(t, next, job, next != t) && (next != t <==> Holds(t, job, worker, now)) && next.events == t.events
  {
    if Holds(t, job, worker, now) {
      assert Retry(t, job, worker, now, delayMs, error).jobs[job].row.status == PENDING;
      assert Defer(t, job, worker, now, delayMs, error).jobs[job].row.status == PENDING;
    }
  }

  /** From a claim on, and until the job is claimed again, nobody but the claimant ever holds it. */
  lemma ClaimFencesOthers(t: Table, job: Id, worker: WorkerId, now: int, cfg: Config, other: WorkerId, later: int)
    requires CanClaim(t, job, now, cfg) && other != worker
    ensures !Holds(Claim(t, job, worker, now, cfg), job, other, later)
    ensures Holds(Claim(t, job, worker, now, cfg), job, worker, later) <==> later < now + cfg.leaseMs
    ensures CanClaim(Claim(t, job, worker, now, cfg), job, later, cfg) ==> later >= now + cfg.leaseMs
  {
  }

  /** A retry spends the attempt and a deferral gives it back; either way the job is nobody's, and can be claimed
      exactly from its due time on while attempts are left. */
  lemma ReleasedIsNobodys(t: Table, job: Id, worker: WorkerId, now: int, delayMs: int, error: string, anyone: WorkerId, later: int, cfg: Config)
    requires Holds(t, job, worker, now) && t.jobs[job].row.attempts >= 1
    ensures var next := Retry(t, job, worker, now, delayMs, error);
            !Holds(next, job, anyone, later)
            && (CanClaim(next, job, later, cfg) <==> now + delayMs <= later && t.jobs[job].row.attempts < cfg.maxAttempts)
    ensures var next := Defer(t, job, worker, now, delayMs, error);
            !Holds(next, job, anyone, later)
            && (CanClaim(next, job, later, cfg) <==> now + delayMs <= later && t.jobs[job].row.attempts <= cfg.maxAttempts)
  {
  }

  /** How many outcomes the history records for a job. */
  function Outcomes(events: seq<JobEvent>, job: Id): nat {
    if events == [] then 0
    else Outcomes(events[..|events| - 1], job) + if events[|events| - 1].job == job then 1 else 0
  }

  /** The event tells the job's outcome. */
  ghost predicate Tells(e: JobEvent, job: Job) {
    if e.event == FAILED_EVENT then job.row.status == FAILED
    else job.row.status == SUCCEEDED && e.fulfillmentId.Some? && job.fulfillmentId == e.fulfillmentId
  }

  predicate IsClosed(t: Table, job: Id) { job in t.jobs && t.jobs[job].row.status in {SUCCEEDED, FAILED} }

  /** A job has one event exactly when it is closed, and its event tells its outcome. */
  ghost predicate EventsOk(t: Table) {
    && (forall job :: Outcomes(t.events, job) == if IsClosed(t, job) then 1 else 0)
    && (forall e :: e in t.events ==> e.job in t.jobs && Tells(e, t.jobs[e.job]))
  }

  lemma OutcomeNext(events: seq<JobEvent>, e: JobEvent, job: Id)
    ensures Outcomes(events + [e], job) == Outcomes(events, job) + if e.job == job then 1 else 0
  {
    assert (events + [e])[..|events|] == events;
  }

  lemma {:induction false} OutcomeOf(events: seq<JobEvent>, e: JobEvent)
    requires e in events
    ensures Outcomes(events, e.job) >= 1
  {
    var n := |events| - 1;
    if events[n].job != e.job { OutcomeOf(events[..n], e); }
  }

  /** The job's row is replaced by one that is no more closed than before. */
  lemma OpenRowKeepsEvents(t: Table, job: Id, row: Row)
    requires EventsOk(t) && job in t.jobs && !IsClosed(t, job) && row.status in {PENDING, RUNNING}
    ensures EventsOk(WithRow(t, job, row))
  {
    var next := WithRow(t, job, row);
    forall e | e in next.events ensures e.job in next.jobs && Tells(e, next.jobs[e.job]) {
      OutcomeOf(t.events, e);
      assert IsClosed(t, e.job);
    }
    hide Tells, Outcomes;
  }

  lemma ClosingCounts(t: Table, next: Table, job: Id, e: JobEvent, j: Id)
    requires EventsOk(t) && job in t.jobs && !IsClosed(t, job) && e.job == job
    requires job in next.jobs && next.jobs == t.jobs[job := next.jobs[job]] && next.events == t.events + [e] && IsClosed(next, job)
    ensures Outcomes(next.events, j) == if IsClosed(next, j) then 1 else 0
  {
    OutcomeNext(t.events, e, j);
    assert Outcomes(t.events, j) == if IsClosed(t, j) then 1 else 0;
    hide EventsOk, Outcomes;
  }

  lemma EarlierTells(t: Table, next: Table, job: Id, f: JobEvent)
    requires EventsOk(t) && job in t.jobs && !IsClosed(t, job) && f in t.events
    requires job in next.jobs && next.jobs == t.jobs[job := next.jobs[job]]
    ensures f.job in next.jobs && Tells(f, next.jobs[f.job])
  {
    OutcomeOf(t.events, f);
    assert IsClosed(t, f.job);
    hide Outcomes;
  }

  /** The job is closed and its event recorded in one step. */
  lemma ClosingKeepsEvents(t: Table, next: Table, job: Id, e: JobEvent)
    requires EventsOk(t) && job in t.jobs && !IsClosed(t, job) && e.job == job
    requires job in next.jobs && next.jobs == t.jobs[job := next.jobs[job]] && next.events == t.events + [e]
    requires Tells(e, next.jobs[job]) && IsClosed(next, job)
    ensures EventsOk(next)
  {
    forall j ensures Outcomes(next.events, j) == if IsClosed(next, j) then 1 else 0 { ClosingCounts(t, next, job, e, j); }
    forall f | f in next.events ensures f.job in next.jobs && Tells(f, next.jobs[f.job]) {
      if f in t.events { EarlierTells(t, next, job, f); }
    }
    hide Tells, Outcomes, IsClosed;
  }

  lemma ClaimKeepsEvents(t: Table, job: Id, worker: WorkerId, now: int, cfg: Config)
    requires EventsOk(t) && CanClaim(t, job, now, cfg)
    ensures EventsOk(Claim(t, job, worker, now, cfg))
  {
    OpenRowKeepsEvents(t, job, Claimed(t.jobs[job].row, worker, now, cfg.leaseMs, false));
  }

  lemma ExtendKeepsEvents(t: Table, job: Id, worker: WorkerId, now: int, cfg: Config)
    requires EventsOk(t)
    ensures EventsOk(ExtendLease(t, job, worker, now, cfg).0)
  {
    if Holds(t, job, worker, now) { OpenRowKeepsEvents(t, job, Extended(t.jobs[job].row, now, cfg.leaseMs)); }
  }

  lemma SuccessKeepsEvents(t: Table, job: Id, worker: WorkerId, now: int, id: string, recovered: bool)
    requires EventsOk(t)
    ensures EventsOk(Success(t, job, worker, now, id, recovered).0)
  {
    if Holds(t, job, worker, now) {
      ClosingKeepsEvents(t, Success(t, job, worker, now, id, recovered).0, job,
                         JobEvent(job, if recovered then RECOVERED else CREATED, worker, Some(id)));
    }
  }

  lemma FailKeepsEvents(t: Table, job: Id, worker: WorkerId, now: int, error: string)
    requires EventsOk(t)
    ensures EventsOk(Fail(t, job, worker, now, error).0)
  {
    if Holds(t, job, worker, now) {
      ClosingKeepsEvents(t, Fail(t, job, worker, now, error).0, job, JobEvent(job, FAILED_EVENT, worker, None));
    }
  }

  lemma ReleaseKeepsEvents(t: Table, job: Id, worker: WorkerId, now: int, delayMs: int, error: string)
    requires EventsOk(t)
    ensures EventsOk(Retry(t, job, worker, now, delayMs, error)) && EventsOk(Defer(t, job, worker, now, delayMs, error))
  {
    if Holds(t, job, worker, now) {
      OpenRowKeepsEvents(t, job, Requeued(t.jobs[job].row, now + delayMs, error));
      OpenRowKeepsEvents(t, job, Deferred(t.jobs[job].row, now + delayMs, error));
    }
  }

  class ShopifyFulfillmentJobStore {
    var jobs: map<Id, Job>
    var events: seq<JobEvent>

    function Contents(): Table
      reads this
    {
      Table(jobs, events)
    }

    constructor ()
      ensures Contents() == Table(map[], [])
    {
      jobs, events := map[], [];
    }

    /** `FOR UPDATE SKIP LOCKED LIMIT 1` takes some claimable row; which one is left open. */
    method ClaimOne(worker: WorkerId, now: int, cfg: Config) returns (claimed: Option<Id>)
      modifies this
      ensures claimed.None? ==> Contents() == old(Contents()) && forall j :: j in jobs ==> !CanClaim(Contents(), j, now, cfg)
      ensures claimed.Some? ==>
        && CanClaim(old(Contents()), claimed.value, now, cfg)
        && Contents() == Claim(old(Contents()), claimed.value, worker, now, cfg)
    {
      var candidates := set j | j in jobs && Claimable(jobs[j].row, now, cfg.maxAttempts);
      if candidates == {} {
        assert forall j :: j in jobs && Claimable(jobs[j].row, now, cfg.maxAttempts) ==> j in candidates;
        return None;
      }
      var j :| j in candidates;
      jobs := jobs[j := jobs[j].(row := Claimed(jobs[j].row, worker, now, cfg.leaseMs, false))];
      return Some(j);
    }

    method Extend(job: Id, worker: WorkerId, now: int, cfg: Config) returns (ok: bool)
      modifies this
      ensures (Contents(), ok) == ExtendLease(old(Contents()), job, worker, now, cfg)
    {
      ok := Holds(Contents(), job, worker, now);
      if ok { jobs := jobs[job := jobs[job].(row := jobs[job].row.(leaseExpiresAt := Some(now + cfg.leaseMs)))]; }
    }

    /** One transaction: the job update first, and its event only if the update hit the row. */
    method Succeed(job: Id, worker: WorkerId, now: int, fulfillmentId: string, recovered: bool) returns (ok: bool)
      modifies this
      ensures (Contents(), ok) == Success(old(Contents()), job, worker, now, fulfillmentId, recovered)
    {
      if !Holds(Contents(), job, worker, now) { return false; }
      var row := jobs[job].row;
      jobs := jobs[job := Job(row.(status := SUCCEEDED, lockedBy := None, leaseExpiresAt := None), Some(fulfillmentId))];
      events := events + [JobEvent(job, if recovered then RECOVERED else CREATED, worker, Some(fulfillmentId))];
      return true;
    }

    method Requeue(job: Id, worker: WorkerId, now: int, delayMs: int, error: string)
      modifies this
      ensures Contents() == Retry(old(Contents()), job, worker, now, delayMs, error)
    {
      if Holds(Contents(), job, worker, now) {
        jobs := jobs[job := jobs[job].(row := Requeued(jobs[job].row, now + delayMs, error))];
      }
    }

    /** `deferConnection` and `deferRateLimit` differ in the recorded reason only. */
    method DeferJob(job: Id, worker: WorkerId, now: int, delayMs: int, reason: string)
      modifies this
      ensures Contents() == Defer(old(Contents()), job, worker, now, delayMs, reason)
    {
      if Holds(Contents(), job, worker, now) {
        jobs := jobs[job := jobs[job].(row := Deferred(jobs[job].row, now + delayMs, reason))];
      }
    }

    method FailJob(job: Id, worker: WorkerId, now: int, error: string) returns (ok: bool)
      modifies this
      ensures (Contents(), ok) == Fail(old(Contents()), job, worker, now, error)
    {
      if !Holds(Contents(), job, worker, now) { return false; }
      jobs := jobs[job := jobs[job].(row := Closed(jobs[job].row, FAILED, Some(error)))];
      events := events + [JobEvent(job, FAILED_EVENT, worker, None)];
      return true;
    }
  }
}
