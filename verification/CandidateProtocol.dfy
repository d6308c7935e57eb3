/**
 Many candidate workers over one job store (src/candidates/worker.ts). A run is a list of
 actions, one per awaited call of `processOne`; `log` is history that no step reads.
 */
module CandidateProtocol {
  import opened Lease
  import opened CandidateStore
  import RetryPolicy

  /** The parts of a thrown value the worker looks at. */
  datatype Failure = ConnectionUnavailable | Thrown(status: Option<int>, retryAfterMs: Option<int>, name: string)

  datatype Pc =
    | Idle
    | Loading(job: Id, attempt: nat)
    | Fetching(job: Id, attempt: nat)
    | Completing(job: Id, attempt: nat, snapshot: Snapshot)
    | Deferring(job: Id, attempt: nat, delayMs: int, reason: string)
    | Retrying(job: Id, attempt: nat, delayMs: int, code: string)
    | Failing(job: Id, code: string)

  datatype Entry =
    | Claim(job: Id, worker: WorkerId, until: int)
    | Extend(job: Id, until: int)
    | Deferral(job: Id)
    | Completion(job: Id, worker: WorkerId, at: int, snapshot: Snapshot)

  datatype World = World(now: int, table: Table, pcs: map<WorkerId, Pc>, log: seq<Entry>)

  /** How a store call ends for its caller. */
  datatype Reply = Arrived | FailedBefore(failure: Failure) | LostAfter(failure: Failure)

  datatype Action =
    | Tick(ms: nat)
    | Enqueue(job: Id)
    | ClaimJob(worker: WorkerId, job: Id)
    | Heartbeat(worker: WorkerId, job: Id)
    | LoadProfile(worker: WorkerId, error: Option<Failure>, random: real)
    | Fetched(worker: WorkerId, snapshot: Snapshot)
    | FetchFailed(worker: WorkerId, failure: Failure, random: real)
    | CompleteCall(worker: WorkerId, reply: Reply, random: real)
    | DeferCall(worker: WorkerId, reply: Reply)
    | RetryCall(worker: WorkerId, reply: Reply)
    | FailCall(worker: WorkerId, reply: Reply)
    | Crash(worker: WorkerId)

  function PcOf(w: World, worker: WorkerId): Pc {
    if worker in w.pcs then w.pcs[worker] else Idle
  }

  function Goto(w: World, worker: WorkerId, pc: Pc): World {
    w.(pcs := w.pcs[worker := pc])
  }

  function StatusText(n: int): string {
    "CATALOG_HTTP_" + if n < 0 then "-" + RetryPolicy.DecimalText(-n) else RetryPolicy.DecimalText(n)
  }

  /** The catch of `processOne`. */
  function OnError(cfg: Config, job: Id, attempt: nat, failure: Failure, random: real): Pc {
    match failure
    case ConnectionUnavailable => Deferring(job, attempt, 30_000, WAITING_FOR_CONNECTION)
    case Thrown(status, retryAfterMs, name) =>
      if status == Some(429) then
        Deferring(job, attempt,
                  if retryAfterMs.Some? && retryAfterMs.value > 0 then retryAfterMs.value else RetryPolicy.BackoffMs(attempt, random),
                  WAITING_FOR_RATE_LIMIT)
      else
        var retryable := status.None? || status.value == 408 || status.value >= 500;
        var code := if status.Some? && status.value != 0 then StatusText(status.value) else name;
        if retryable && attempt < cfg.maxAttempts then Retrying(job, attempt, RetryPolicy.BackoffMs(attempt, random), code)
        else Failing(job, code)
  }

  const LOST_LEASE := Thrown(None, None, "Error")

  function ApplyClaim(cfg: Config, w: World, worker: WorkerId, job: Id): World {
    if PcOf(w, worker) != Idle || !CanClaim(w.table, job, w.now, cfg) then w
    else
      var table := CandidateStore.Claim(w.table, job, worker, w.now, cfg);
      var attempt := table.rows[job].attempts;
      Goto(w.(table := table, log := w.log + [Claim(job, worker, w.now + cfg.leaseMs)]), worker,
           if attempt > cfg.maxAttempts then Failing(job, "LEASE_EXHAUSTED") else Loading(job, attempt))
  }

  function ApplyHeartbeat(cfg: Config, w: World, worker: WorkerId, job: Id): World {
    var (table, ok) := ExtendLease(w.table, job, worker, w.now, cfg);
    w.(table := table, log := w.log + if ok then [Extend(job, w.now + cfg.leaseMs)] else [])
  }

  function ApplyLoad(cfg: Config, w: World, worker: WorkerId, error: Option<Failure>, random: real): World {
    match PcOf(w, worker)
    case Loading(job, attempt) =>
      Goto(w, worker, if error.Some? then OnError(cfg, job, attempt, error.value, random) else Fetching(job, attempt))
    case _ => w
  }

  function ApplyFetched(w: World, worker: WorkerId, snapshot: Snapshot): World {
    match PcOf(w, worker)
    case Fetching(job, attempt) => Goto(w, worker, Completing(job, attempt, snapshot))
    case _ => w
  }

  function ApplyFetchFailed(cfg: Config, w: World, worker: WorkerId, failure: Failure, random: real): World {
    match PcOf(w, worker)
    case Fetching(job, attempt) => Goto(w, worker, OnError(cfg, job, attempt, failure, random))
    case _ => w
  }

  function ApplyComplete(cfg: Config, w: World, worker: WorkerId, reply: Reply, random: real): World {
    match PcOf(w, worker)
    case Completing(job, attempt, snapshot) =>
      if reply.FailedBefore? then Goto(w, worker, OnError(cfg, job, attempt, reply.failure, random))
      else
        var (table, ok) := Complete(w.table, job, worker, w.now, snapshot);
        var next := w.(table := table, log := w.log + if ok then [Completion(job, worker, w.now, snapshot)] else []);
        Goto(next, worker,
             if reply.LostAfter? then OnError(cfg, job, attempt, reply.failure, random)
             else if ok then Idle
             else OnError(cfg, job, attempt, LOST_LEASE, random))
    case _ => w
  }

  function ApplyDefer(w: World, worker: WorkerId, reply: Reply): World {
    match PcOf(w, worker)
    case Deferring(job, attempt, delayMs, reason) =>
      if reply.FailedBefore? then Goto(w, worker, Idle)
      else
        var (table, ok) := Defer(w.table, job, worker, w.now + delayMs, reason);
        Goto(w.(table := table, log := w.log + if ok then [Deferral(job)] else []), worker, Idle)
    case _ => w
  }

  function ApplyRetry(w: World, worker: WorkerId, reply: Reply): World {
    match PcOf(w, worker)
    case Retrying(job, attempt, delayMs, code) =>
      Goto(if reply.FailedBefore? then w else w.(table := Retry(w.table, job, worker, w.now + delayMs, code).0), worker, Idle)
    case _ => w
  }

  function ApplyFail(w: World, worker: WorkerId, reply: Reply): World {
    match PcOf(w, worker)
    case Failing(job, code) =>
      Goto(if reply.FailedBefore? then w else w.(table := Fail(w.table, job, worker, code).0), worker, Idle)
    case _ => w
  }

  function ApplyEnqueue(w: World, job: Id): World {
    if job in w.table.rows then w else w.(table := WithRow(w.table, job, Enqueued(w.now)))
  }

  function Apply(cfg: Config, w: World, a: Action): World {
    match a
    case Tick(ms) => w.(now := w.now + ms)
    case Enqueue(job) => ApplyEnqueue(w, job)
    case ClaimJob(worker, job) => ApplyClaim(cfg, w, worker, job)
    case Heartbeat(worker, job) => ApplyHeartbeat(cfg, w, worker, job)
    case LoadProfile(worker, error, random) => ApplyLoad(cfg, w, worker, error, random)
    case Fetched(worker, snapshot) => ApplyFetched(w, worker, snapshot)
    case FetchFailed(worker, failure, random) => ApplyFetchFailed(cfg, w, worker, failure, random)
    case CompleteCall(worker, reply, random) => ApplyComplete(cfg, w, worker, reply, random)
    case DeferCall(worker, reply) => ApplyDefer(w, worker, reply)
    case RetryCall(worker, reply) => ApplyRetry(w, worker, reply)
    case FailCall(worker, reply) => ApplyFail(w, worker, reply)
    case Crash(worker) => Goto(w, worker, Idle)
  }

  const INITIAL := World(0, Table(map[], map[]), map[], [])

  function Run(cfg: Config, actions: seq<Action>): World {
    if actions == [] then INITIAL
    else Apply(cfg, Run(cfg, actions[..|actions| - 1]), actions[|actions| - 1])
  }

  // ---- what the history says ----

  function Claims(log: seq<Entry>, job: Id): nat {
    if log == [] then 0
    else Claims(log[..|log| - 1], job) + if log[|log| - 1].Claim? && log[|log| - 1].job == job then 1 else 0
  }

  function Deferrals(log: seq<Entry>, job: Id): nat {
    if log == [] then 0
    else Deferrals(log[..|log| - 1], job) + if log[|log| - 1] == Deferral(job) then 1 else 0
  }

  function Completions(log: seq<Entry>, job: Id): nat {
    if log == [] then 0
    else Completions(log[..|log| - 1], job) + if log[|log| - 1].Completion? && log[|log| - 1].job == job then 1 else 0
  }

  /** Who claimed the job last. */
  function LatestClaimant(log: seq<Entry>, job: Id): Option<WorkerId> {
    if log == [] then None
    else if log[|log| - 1].Claim? && log[|log| - 1].job == job then Some(log[|log| - 1].worker)
    else LatestClaimant(log[..|log| - 1], job)
  }

  /** Until when the last claim or extension of the job reaches. */
  function LeaseEnd(log: seq<Entry>, job: Id): Option<int> {
    if log == [] then None
    else if (log[|log| - 1].Claim? || log[|log| - 1].Extend?) && log[|log| - 1].job == job then Some(log[|log| - 1].until)
    else LeaseEnd(log[..|log| - 1], job)
  }

  ghost predicate CompletedByLatestClaimant(log: seq<Entry>, i: nat)
    requires i < |log|
  {
    log[i].Completion? ==>
      && LatestClaimant(log[..i], log[i].job) == Some(log[i].worker)
      && LeaseEnd(log[..i], log[i].job).Some? && log[i].at < LeaseEnd(log[..i], log[i].job).value
  }

  // ---- the invariant ----

  ghost predicate JobOk(cfg: Config, row: Row, log: seq<Entry>, job: Id, result: Option<Snapshot>) {
    && Lease.Consistent(row, cfg.maxAttempts)
    && row.attempts + Deferrals(log, job) == Claims(log, job)
    && (row.status == RUNNING ==> LatestClaimant(log, job) == row.lockedBy && LeaseEnd(log, job) == row.leaseExpiresAt)
    && (row.status == SUCCEEDED <==> result.Some?)
    && Completions(log, job) == (if row.status == SUCCEEDED then 1 else 0)
  }

  function ResultOf(t: Table, job: Id): Option<Snapshot> {
    if job in t.completed then Some(t.completed[job]) else None
  }

  ghost predicate TableOk(cfg: Config, table: Table, log: seq<Entry>) {
    && (forall j :: j in table.rows ==> JobOk(cfg, table.rows[j], log, j, ResultOf(table, j)))
    && (forall j :: j !in table.rows ==> j !in table.completed && Unmentioned(log, j))
  }

  ghost predicate Unmentioned(log: seq<Entry>, job: Id) {
    forall i :: 0 <= i < |log| ==> log[i].job != job
  }

  ghost predicate LogOk(log: seq<Entry>) {
    forall i: nat :: i < |log| ==> CompletedByLatestClaimant(log, i)
  }

  /** While `worker` holds the lock, the attempt it remembers is the row's. */
  ghost predicate Attempting(cfg: Config, t: Table, worker: WorkerId, job: Id, attempt: nat) {
    && job in t.rows && 1 <= attempt <= cfg.maxAttempts
    && (Owned(t.rows[job], worker) ==> t.rows[job].attempts == attempt)
  }

  ghost predicate PcOk(cfg: Config, t: Table, worker: WorkerId, pc: Pc) {
    match pc
    case Idle => true
    case Loading(j, a) => Attempting(cfg, t, worker, j, a)
    case Fetching(j, a) => Attempting(cfg, t, worker, j, a)
    case Completing(j, a, _) => Attempting(cfg, t, worker, j, a)
    case Deferring(j, a, _, _) => Attempting(cfg, t, worker, j, a)
    case Retrying(j, a, _, _) => Attempting(cfg, t, worker, j, a) && a < cfg.maxAttempts
    case Failing(j, _) => j in t.rows
  }

  ghost predicate PcsOk(cfg: Config, t: Table, pcs: map<WorkerId, Pc>) {
    forall worker :: worker in pcs ==> PcOk(cfg, t, worker, pcs[worker])
  }

  ghost predicate Inv(cfg: Config, w: World) {
    TableOk(cfg, w.table, w.log) && LogOk(w.log) && PcsOk(cfg, w.table, w.pcs)
  }

  /** A finished job is never touched again. */
  ghost predicate ResultsKept(t: Table, next: Table) {
    && (forall j :: j in t.completed ==> j in next.completed && next.completed[j] == t.completed[j])
    && (forall j :: j in t.rows && t.rows[j].status in {SUCCEEDED, FAILED} ==> j in next.rows && next.rows[j] == t.rows[j])
  }

  ghost predicate StepFine(cfg: Config, w: World, next: World) {
    Inv(cfg, next) && ResultsKept(w.table, next.table)
  }

  ghost predicate RowKeeps(before: Row, after: Row, claimant: Option<WorkerId>) {
    && before.status !in {SUCCEEDED, FAILED}
    && (|| after.status != RUNNING
        || (before.status == RUNNING && after.lockedBy == before.lockedBy && after.attempts == before.attempts)
        || (claimant.Some? && after.lockedBy == claimant))
  }

  lemma LogAppend(log: seq<Entry>, e: Entry, job: Id)
    ensures (log + [e])[..|log|] == log
    ensures e.job != job ==>
      && Claims(log + [e], job) == Claims(log, job) && Deferrals(log + [e], job) == Deferrals(log, job)
      && Completions(log + [e], job) == Completions(log, job)
      && LatestClaimant(log + [e], job) == LatestClaimant(log, job) && LeaseEnd(log + [e], job) == LeaseEnd(log, job)
  {
  }

  /** The table with one row replaced, and its result if there is one. */
  function WithResult(t: Table, job: Id, row: Row, result: Option<Snapshot>): Table {
    WithRow(t, job, row).(completed := if result.Some? then t.completed[job := result.value] else t.completed)
  }

  /** One row and at most one log entry about the same job. */
  lemma TableStep(cfg: Config, t: Table, log: seq<Entry>, job: Id, row: Row, result: Option<Snapshot>, entry: seq<Entry>)
    requires TableOk(cfg, t, log) && LogOk(log) && job in t.rows && |entry| <= 1
    requires entry != [] ==> entry[0].job == job && CompletedByLatestClaimant(log + entry, |log|)
    requires JobOk(cfg, row, log + entry, job, result)
    requires result.None? ==> job !in t.completed
    ensures TableOk(cfg, WithResult(t, job, row, result), log + entry)
    ensures LogOk(log + entry)
  {
    hide LogOk, JobOk, CompletedByLatestClaimant, Unmentioned, ResultOf;
    NextLog(log, entry);
    var next := WithResult(t, job, row, result);
    forall j | j in next.rows ensures JobOk(cfg, next.rows[j], log + entry, j, ResultOf(next, j)) {
      NextRow(cfg, t, log, job, row, result, entry, j);
    }
    forall j | j !in next.rows ensures j !in next.completed && Unmentioned(log + entry, j) {
      StillUnmentioned(log, entry, j, job);
    }
  }

  lemma NextLog(log: seq<Entry>, entry: seq<Entry>)
    requires LogOk(log) && |entry| <= 1 && (entry != [] ==> CompletedByLatestClaimant(log + entry, |log|))
    ensures LogOk(log + entry)
  {
    hide LogOk, CompletedByLatestClaimant;
    if entry == [] {
      assert log + entry == log;
    } else {
      assert entry == [entry[0]];
      LogStep(log, entry[0]);
    }
  }

  lemma StillUnmentioned(log: seq<Entry>, entry: seq<Entry>, j: Id, job: Id)
    requires Unmentioned(log, j) && j != job && forall i :: 0 <= i < |entry| ==> entry[i].job == job
    ensures Unmentioned(log + entry, j)
  {
  }

  lemma NextRow(cfg: Config, t: Table, log: seq<Entry>, job: Id, row: Row, result: Option<Snapshot>, entry: seq<Entry>, j: Id)
    requires TableOk(cfg, t, log) && job in t.rows && |entry| <= 1 && (entry != [] ==> entry[0].job == job)
    requires JobOk(cfg, row, log + entry, job, result) && (result.None? ==> job !in t.completed) && j in t.rows
    ensures var next := WithResult(t, job, row, result); JobOk(cfg, next.rows[j], log + entry, j, ResultOf(next, j))
  {
    RowIs(t, job, row, result, j);
    if j != job {
      assert JobOk(cfg, t.rows[j], log, j, ResultOf(t, j));
      hide JobOk, TableOk, WithResult, ResultOf;
      OtherEntry(cfg, t.rows[j], log, entry, j, job, ResultOf(t, j));
    }
    hide JobOk, TableOk, WithResult, ResultOf;
  }

  lemma RowIs(t: Table, job: Id, row: Row, result: Option<Snapshot>, j: Id)
    requires job in t.rows && j in t.rows && (result.None? ==> job !in t.completed)
    ensures var next := WithResult(t, job, row, result);
            && j in next.rows && next.rows[j] == (if j == job then row else t.rows[j])
            && ResultOf(next, j) == (if j == job then result else ResultOf(t, j))
  {
  }

  lemma OtherEntry(cfg: Config, row: Row, log: seq<Entry>, entry: seq<Entry>, j: Id, job: Id, result: Option<Snapshot>)
    requires JobOk(cfg, row, log, j, result) && j != job && |entry| <= 1 && (entry != [] ==> entry[0].job == job)
    ensures JobOk(cfg, row, log + entry, j, result)
  {
    hide JobOk;
    if entry == [] {
      assert log + entry == log;
    } else {
      assert entry == [entry[0]];
      OtherRowOk(cfg, row, log, entry[0], j, result);
    }
  }

  /** An entry about one job leaves the other jobs in order. */
  lemma OtherRowOk(cfg: Config, row: Row, log: seq<Entry>, e: Entry, j: Id, result: Option<Snapshot>)
    requires JobOk(cfg, row, log, j, result) && j != e.job
    ensures JobOk(cfg, row, log + [e], j, result)
  {
    LogAppend(log, e, j);
    hide Claims, Deferrals, Completions, LatestClaimant, LeaseEnd, Lease.Consistent;
  }

  lemma LogStep(log: seq<Entry>, e: Entry)
    requires LogOk(log) && CompletedByLatestClaimant(log + [e], |log|)
    ensures LogOk(log + [e])
  {
    forall i: nat | i < |log| ensures CompletedByLatestClaimant(log + [e], i) {
      assert CompletedByLatestClaimant(log, i);
      assert (log + [e])[..i] == log[..i];
    }
  }

  lemma PcsStep(cfg: Config, t: Table, next: Table, pcs: map<WorkerId, Pc>, job: Id, row: Row, actor: WorkerId, claimant: Option<WorkerId>, pc: Pc)
    requires PcsOk(cfg, t, pcs) && job in t.rows && next.rows == t.rows[job := row] && RowKeeps(t.rows[job], row, claimant)
    requires claimant in {None, Some(actor)} && PcOk(cfg, next, actor, pc)
    ensures PcsOk(cfg, next, pcs[actor := pc])
  {
    forall u | u in pcs && u != actor ensures PcOk(cfg, next, u, pcs[u]) {
      assert PcOk(cfg, t, u, pcs[u]);
    }
  }

  /** An update of one row, the log entry that goes with it, and `actor` moving on. */
  lemma RowStep(cfg: Config, w: World, job: Id, row: Row, result: Option<Snapshot>, entry: seq<Entry>,
                actor: WorkerId, claimant: Option<WorkerId>, pc: Pc)
    requires Inv(cfg, w) && job in w.table.rows && |entry| <= 1 && RowKeeps(w.table.rows[job], row, claimant)
    requires entry != [] ==> entry[0].job == job && CompletedByLatestClaimant(w.log + entry, |w.log|)
    requires JobOk(cfg, row, w.log + entry, job, result)
    requires claimant in {None, Some(actor)}
    requires var table := WithResult(w.table, job, row, result);
             PcOk(cfg, table, actor, pc)
    ensures var table := WithResult(w.table, job, row, result);
            StepFine(cfg, w, Goto(w.(table := table, log := w.log + entry), actor, pc))
  {
    assert JobOk(cfg, w.table.rows[job], w.log, job, ResultOf(w.table, job));
    TableStep(cfg, w.table, w.log, job, row, result, entry);
    var table := WithResult(w.table, job, row, result);
    PcsStep(cfg, w.table, table, w.pcs, job, row, actor, claimant, pc);
  }

  lemma MoveOk(cfg: Config, w: World, actor: WorkerId, pc: Pc)
    requires Inv(cfg, w) && PcOk(cfg, w.table, actor, pc)
    ensures StepFine(cfg, w, Goto(w, actor, pc))
  {
  }

  lemma PcAt(cfg: Config, w: World, worker: WorkerId)
    requires Inv(cfg, w)
    ensures PcOk(cfg, w.table, worker, PcOf(w, worker)) && StepFine(cfg, w, w)
  {
  }

  lemma ErrorPcOk(cfg: Config, t: Table, worker: WorkerId, job: Id, attempt: nat, failure: Failure, random: real)
    requires Attempting(cfg, t, worker, job, attempt)
    ensures PcOk(cfg, t, worker, OnError(cfg, job, attempt, failure, random))
  {
    hide RetryPolicy.BackoffMs, StatusText;
  }

  lemma ClaimedJobOk(cfg: Config, w: World, worker: WorkerId, job: Id)
    requires TableOk(cfg, w.table, w.log) && CanClaim(w.table, job, w.now, cfg)
    ensures var entry := Claim(job, worker, w.now + cfg.leaseMs);
            JobOk(cfg, Claimed(w.table.rows[job], worker, w.now, cfg.leaseMs, true), w.log + [entry], job, None)
    ensures job !in w.table.completed
  {
    assert JobOk(cfg, w.table.rows[job], w.log, job, ResultOf(w.table, job));
    LogAppend(w.log, Claim(job, worker, w.now + cfg.leaseMs), job);
  }

  /** The claimant may go on from the claimed row, and a claim completes nothing. */
  lemma ClaimedPcOk(cfg: Config, w: World, worker: WorkerId, job: Id)
    requires TableOk(cfg, w.table, w.log) && CanClaim(w.table, job, w.now, cfg)
    ensures var row := Claimed(w.table.rows[job], worker, w.now, cfg.leaseMs, true);
            && RowKeeps(w.table.rows[job], row, Some(worker))
            && CompletedByLatestClaimant(w.log + [Claim(job, worker, w.now + cfg.leaseMs)], |w.log|)
            && PcOk(cfg, WithRow(w.table, job, row), worker,
                    if row.attempts > cfg.maxAttempts then Failing(job, "LEASE_EXHAUSTED") else Loading(job, row.attempts))
  {
    assert JobOk(cfg, w.table.rows[job], w.log, job, ResultOf(w.table, job));
  }

  lemma NothingHappens(cfg: Config, w: World)
    requires Inv(cfg, w)
    ensures StepFine(cfg, w, w)
  {
  }

  lemma ClaimTaken(cfg: Config, w: World, worker: WorkerId, job: Id)
    requires Inv(cfg, w) && CanClaim(w.table, job, w.now, cfg)
    ensures var row := Claimed(w.table.rows[job], worker, w.now, cfg.leaseMs, true);
            StepFine(cfg, w, Goto(w.(table := WithRow(w.table, job, row), log := w.log + [Claim(job, worker, w.now + cfg.leaseMs)]), worker,
                                  if row.attempts > cfg.maxAttempts then Failing(job, "LEASE_EXHAUSTED") else Loading(job, row.attempts)))
  {
    ClaimedJobOk(cfg, w, worker, job);
    ClaimedPcOk(cfg, w, worker, job);
    var row := Claimed(w.table.rows[job], worker, w.now, cfg.leaseMs, true);
    hide JobOk, TableOk, LogOk, PcsOk, StepFine, RowKeeps, CompletedByLatestClaimant, PcOk;
    hide Claims, Deferrals, Completions, LatestClaimant, LeaseEnd;
    var pc := if row.attempts > cfg.maxAttempts then Failing(job, "LEASE_EXHAUSTED") else Loading(job, row.attempts);
    RowStep(cfg, w, job, row, None, [Claim(job, worker, w.now + cfg.leaseMs)], worker, Some(worker), pc);
  }

  lemma ClaimStep(cfg: Config, w: World, worker: WorkerId, job: Id)
    requires Inv(cfg, w)
    ensures StepFine(cfg, w, ApplyClaim(cfg, w, worker, job))
  {
    hide Inv, StepFine;
    if PcOf(w, worker) == Idle && CanClaim(w.table, job, w.now, cfg) {
      ClaimTaken(cfg, w, worker, job);
    } else {
      NothingHappens(cfg, w);
    }
  }

  /** An owned row under a live lease stays in order when the lease is extended. */
  lemma HeartbeatRow(cfg: Config, t: Table, log: seq<Entry>, job: Id, worker: WorkerId, now: int)
    requires TableOk(cfg, t, log) && ExtendLease(t, job, worker, now, cfg).1
    ensures job in t.rows && job !in t.completed && t.rows[job].status == RUNNING
    ensures JobOk(cfg, Extended(t.rows[job], now, cfg.leaseMs), log + [Extend(job, now + cfg.leaseMs)], job, None)
    ensures RowKeeps(t.rows[job], Extended(t.rows[job], now, cfg.leaseMs), None)
  {
    LogAppend(log, Extend(job, now + cfg.leaseMs), job);
  }

  lemma HeartbeatStep(cfg: Config, w: World, worker: WorkerId, job: Id)
    requires Inv(cfg, w)
    ensures StepFine(cfg, w, ApplyHeartbeat(cfg, w, worker, job))
  {
    if ExtendLease(w.table, job, worker, w.now, cfg).1 {
      HeartbeatFine(cfg, w, worker, job);
    } else {
      HeartbeatRefused(cfg, w, worker, job);
      NothingHappens(cfg, w);
    }
    hide *;
  }

  lemma HeartbeatFine(cfg: Config, w: World, worker: WorkerId, job: Id)
    requires Inv(cfg, w) && ExtendLease(w.table, job, worker, w.now, cfg).1
    ensures StepFine(cfg, w, ApplyHeartbeat(cfg, w, worker, job))
  {
    hide TableOk, LogOk, PcsOk, ResultsKept, ExtendLease;
    HeartbeatTable(cfg, w.table, w.log, worker, job, w.now);
    HeartbeatOthers(cfg, w, worker, job);
  }

  lemma HeartbeatRefused(cfg: Config, w: World, worker: WorkerId, job: Id)
    requires !ExtendLease(w.table, job, worker, w.now, cfg).1
    ensures ApplyHeartbeat(cfg, w, worker, job) == w
  {
    assert w.log + [] == w.log;
  }

  lemma HeartbeatOthers(cfg: Config, w: World, worker: WorkerId, job: Id)
    requires Inv(cfg, w) && ExtendLease(w.table, job, worker, w.now, cfg).1
    ensures PcsOk(cfg, ExtendLease(w.table, job, worker, w.now, cfg).0, w.pcs)
    ensures ResultsKept(w.table, ExtendLease(w.table, job, worker, w.now, cfg).0)
  {
    HeartbeatRow(cfg, w.table, w.log, job, worker, w.now);
    HeartbeatPcs(cfg, w, job, Extended(w.table.rows[job], w.now, cfg.leaseMs));
    hide TableOk, LogOk, PcsOk;
  }

  lemma HeartbeatTable(cfg: Config, t: Table, log: seq<Entry>, worker: WorkerId, job: Id, now: int)
    requires TableOk(cfg, t, log) && LogOk(log) && ExtendLease(t, job, worker, now, cfg).1
    ensures TableOk(cfg, ExtendLease(t, job, worker, now, cfg).0, log + [Extend(job, now + cfg.leaseMs)])
    ensures LogOk(log + [Extend(job, now + cfg.leaseMs)])
  {
    HeartbeatRow(cfg, t, log, job, worker, now);
    hide JobOk, Claims, Deferrals, Completions, LatestClaimant, LeaseEnd;
    TableStep(cfg, t, log, job, Extended(t.rows[job], now, cfg.leaseMs), None, [Extend(job, now + cfg.leaseMs)]);
    hide TableOk, LogOk;
  }

  lemma HeartbeatPcs(cfg: Config, w: World, job: Id, row: Row)
    requires PcsOk(cfg, w.table, w.pcs) && job in w.table.rows && RowKeeps(w.table.rows[job], row, None)
    ensures PcsOk(cfg, WithRow(w.table, job, row), w.pcs)
  {
    forall u | u in w.pcs ensures PcOk(cfg, WithRow(w.table, job, row), u, w.pcs[u]) {
      assert PcOk(cfg, w.table, u, w.pcs[u]);
    }
  }

  lemma CompleteStep(cfg: Config, w: World, worker: WorkerId, reply: Reply, random: real)
    requires Inv(cfg, w)
    ensures StepFine(cfg, w, ApplyComplete(cfg, w, worker, reply, random))
  {
    PcAt(cfg, w, worker);
    var pc := PcOf(w, worker);
    if pc.Completing? {
      var failure := if reply.Arrived? then LOST_LEASE else reply.failure;
      ErrorPcOk(cfg, w.table, worker, pc.job, pc.attempt, failure, random);
      hide OnError;
      var next := OnError(cfg, pc.job, pc.attempt, failure, random);
      if reply.FailedBefore? || !Complete(w.table, pc.job, worker, w.now, pc.snapshot).1 {
        assert w.log + [] == w.log;
        MoveOk(cfg, w, worker, next);
      } else {
        CompletedStep(cfg, w, worker, if reply.LostAfter? then Some((failure, random)) else None);
      }
    }
  }

  /** The completion was recorded; its caller saw the reply, or an error in its place. */
  lemma CompletedStep(cfg: Config, w: World, worker: WorkerId, lost: Option<(Failure, real)>)
    requires Inv(cfg, w) && PcOf(w, worker).Completing?
    requires var pc := PcOf(w, worker); Complete(w.table, pc.job, worker, w.now, pc.snapshot).1
    ensures var pc := PcOf(w, worker);
            var table := Complete(w.table, pc.job, worker, w.now, pc.snapshot).0;
            var next := if lost.None? then Idle else OnError(cfg, pc.job, pc.attempt, lost.value.0, lost.value.1);
            StepFine(cfg, w, Goto(w.(table := table, log := w.log + [Completion(pc.job, worker, w.now, pc.snapshot)]), worker, next))
  {
    PcAt(cfg, w, worker);
    var pc := PcOf(w, worker);
    var before := w.table.rows[pc.job];
    assert JobOk(cfg, before, w.log, pc.job, ResultOf(w.table, pc.job));
    var entry := Completion(pc.job, worker, w.now, pc.snapshot);
    LogAppend(w.log, entry, pc.job);
    var row := Closed(before, SUCCEEDED, before.lastError);
    assert JobOk(cfg, row, w.log + [entry], pc.job, Some(pc.snapshot));
    var table := Complete(w.table, pc.job, worker, w.now, pc.snapshot).0;
    assert Attempting(cfg, table, worker, pc.job, pc.attempt);
    if lost.Some? { ErrorPcOk(cfg, table, worker, pc.job, pc.attempt, lost.value.0, lost.value.1); }
    hide OnError;
    var next := if lost.None? then Idle else OnError(cfg, pc.job, pc.attempt, lost.value.0, lost.value.1);
    RowStep(cfg, w, pc.job, row, Some(pc.snapshot), [entry], worker, None, next);
  }

  /** A deferral always holds the attempt it gives back: a RUNNING row has at least one. */
  lemma DeferredJobOk(cfg: Config, w: World, worker: WorkerId, job: Id, availableAt: int, reason: string, attempt: nat)
    requires TableOk(cfg, w.table, w.log) && Owns(w.table, job, worker) && Attempting(cfg, w.table, worker, job, attempt)
    ensures JobOk(cfg, Deferred(w.table.rows[job], availableAt, reason), w.log + [Deferral(job)], job, None)
    ensures job !in w.table.completed
  {
    assert JobOk(cfg, w.table.rows[job], w.log, job, ResultOf(w.table, job));
    LogAppend(w.log, Deferral(job), job);
  }

  lemma DeferOwned(cfg: Config, w: World, worker: WorkerId, job: Id, attempt: nat, availableAt: int, reason: string)
    requires Inv(cfg, w) && Owns(w.table, job, worker) && Attempting(cfg, w.table, worker, job, attempt)
    ensures StepFine(cfg, w, Goto(w.(table := Defer(w.table, job, worker, availableAt, reason).0, log := w.log + [Deferral(job)]), worker, Idle))
  {
    DeferredJobOk(cfg, w, worker, job, availableAt, reason, attempt);
    hide JobOk, TableOk, LogOk, PcsOk, StepFine;
    RowStep(cfg, w, job, Deferred(w.table.rows[job], availableAt, reason), None, [Deferral(job)], worker, None, Idle);
  }

  lemma DeferStep(cfg: Config, w: World, worker: WorkerId, reply: Reply)
    requires Inv(cfg, w)
    ensures StepFine(cfg, w, ApplyDefer(w, worker, reply))
  {
    hide TableOk, LogOk, PcsOk, StepFine;
    PcAt(cfg, w, worker);
    var pc := PcOf(w, worker);
    if pc.Deferring? {
      if reply.FailedBefore? || !Owns(w.table, pc.job, worker) {
        assert w.log + [] == w.log;
        MoveOk(cfg, w, worker, Idle);
      } else {
        DeferOwned(cfg, w, worker, pc.job, pc.attempt, w.now + pc.delayMs, pc.reason);
      }
    }
  }

  lemma ReleaseStep(cfg: Config, w: World, worker: WorkerId, job: Id, row: Row)
    requires Inv(cfg, w) && Owns(w.table, job, worker) && Lease.Consistent(row, cfg.maxAttempts)
    requires row.status in {PENDING, FAILED} && row.attempts == w.table.rows[job].attempts
    ensures StepFine(cfg, w, Goto(w.(table := WithRow(w.table, job, row)), worker, Idle))
  {
    assert JobOk(cfg, w.table.rows[job], w.log, job, ResultOf(w.table, job));
    assert w.log + [] == w.log;
    assert JobOk(cfg, row, w.log + [], job, None);
    RowStep(cfg, w, job, row, None, [], worker, None, Idle);
  }

  lemma RetryOwned(cfg: Config, w: World, worker: WorkerId, pc: Pc)
    requires Inv(cfg, w) && pc.Retrying? && PcOk(cfg, w.table, worker, pc) && Owns(w.table, pc.job, worker)
    ensures StepFine(cfg, w, Goto(w.(table := Retry(w.table, pc.job, worker, w.now + pc.delayMs, pc.code).0), worker, Idle))
  {
    assert JobOk(cfg, w.table.rows[pc.job], w.log, pc.job, ResultOf(w.table, pc.job));
    ReleaseStep(cfg, w, worker, pc.job, Requeued(w.table.rows[pc.job], w.now + pc.delayMs, pc.code));
  }

  lemma RetryStep(cfg: Config, w: World, worker: WorkerId, reply: Reply)
    requires Inv(cfg, w)
    ensures StepFine(cfg, w, ApplyRetry(w, worker, reply))
  {
    hide TableOk, LogOk, PcsOk, PcOk, StepFine;
    PcAt(cfg, w, worker);
    var pc := PcOf(w, worker);
    if pc.Retrying? {
      if reply.FailedBefore? || !Owns(w.table, pc.job, worker) {
        IdleOk(cfg, w, worker);
      } else {
        RetryOwned(cfg, w, worker, pc);
      }
    }
  }

  lemma IdleOk(cfg: Config, w: World, worker: WorkerId)
    requires Inv(cfg, w)
    ensures StepFine(cfg, w, Goto(w, worker, Idle))
  {
    MoveOk(cfg, w, worker, Idle);
  }

  lemma FailStep(cfg: Config, w: World, worker: WorkerId, reply: Reply)
    requires Inv(cfg, w)
    ensures StepFine(cfg, w, ApplyFail(w, worker, reply))
  {
    PcAt(cfg, w, worker);
    var pc := PcOf(w, worker);
    if pc.Failing? {
      if reply.FailedBefore? || !Owns(w.table, pc.job, worker) {
        MoveOk(cfg, w, worker, Idle);
      } else {
        assert JobOk(cfg, w.table.rows[pc.job], w.log, pc.job, ResultOf(w.table, pc.job));
        ReleaseStep(cfg, w, worker, pc.job, Closed(w.table.rows[pc.job], FAILED, Some(pc.code)));
      }
    }
  }

  lemma LocalStep(cfg: Config, w: World, worker: WorkerId, error: Option<Failure>, snapshot: Snapshot, failure: Failure, random: real)
    requires Inv(cfg, w)
    ensures StepFine(cfg, w, ApplyLoad(cfg, w, worker, error, random))
    ensures StepFine(cfg, w, ApplyFetched(w, worker, snapshot))
    ensures StepFine(cfg, w, ApplyFetchFailed(cfg, w, worker, failure, random))
  {
    PcAt(cfg, w, worker);
    var pc := PcOf(w, worker);
    if pc.Loading? {
      if error.Some? { ErrorPcOk(cfg, w.table, worker, pc.job, pc.attempt, error.value, random); }
      hide OnError;
      MoveOk(cfg, w, worker, if error.Some? then OnError(cfg, pc.job, pc.attempt, error.value, random) else Fetching(pc.job, pc.attempt));
    } else if pc.Fetching? {
      ErrorPcOk(cfg, w.table, worker, pc.job, pc.attempt, failure, random);
      hide OnError;
      MoveOk(cfg, w, worker, Completing(pc.job, pc.attempt, snapshot));
      MoveOk(cfg, w, worker, OnError(cfg, pc.job, pc.attempt, failure, random));
    }
  }

  lemma {:induction false} SilentLog(log: seq<Entry>, job: Id)
    requires forall i :: 0 <= i < |log| ==> log[i].job != job
    ensures Claims(log, job) == Deferrals(log, job) == Completions(log, job) == 0
  {
    if log != [] { SilentLog(log[..|log| - 1], job); }
  }

  lemma EnqueueStep(cfg: Config, w: World, job: Id)
    requires Inv(cfg, w) && cfg.maxAttempts > 0
    ensures StepFine(cfg, w, ApplyEnqueue(w, job))
  {
    if job !in w.table.rows {
      SilentLog(w.log, job);
      var table := WithRow(w.table, job, Enqueued(w.now));
      forall u | u in w.pcs ensures PcOk(cfg, table, u, w.pcs[u]) {
        assert PcOk(cfg, w.table, u, w.pcs[u]);
      }
    }
  }

  lemma ApplyOk(cfg: Config, w: World, a: Action)
    requires Inv(cfg, w) && cfg.maxAttempts > 0
    ensures StepFine(cfg, w, Apply(cfg, w, a))
  {
    match a
    case Tick(ms) =>
    case Enqueue(job) => EnqueueStep(cfg, w, job);
    case ClaimJob(worker, job) => ClaimStep(cfg, w, worker, job);
    case Heartbeat(worker, job) => HeartbeatStep(cfg, w, worker, job);
    case LoadProfile(worker, error, random) => LocalStep(cfg, w, worker, error, "", ConnectionUnavailable, random);
    case Fetched(worker, snapshot) => LocalStep(cfg, w, worker, None, snapshot, ConnectionUnavailable, 0.0);
    case FetchFailed(worker, failure, random) => LocalStep(cfg, w, worker, None, "", failure, random);
    case CompleteCall(worker, reply, random) => CompleteStep(cfg, w, worker, reply, random);
    case DeferCall(worker, reply) => DeferStep(cfg, w, worker, reply);
    case RetryCall(worker, reply) => RetryStep(cfg, w, worker, reply);
    case FailCall(worker, reply) => FailStep(cfg, w, worker, reply);
    case Crash(worker) => MoveOk(cfg, w, worker, Idle);
  }

  lemma {:induction false} RunOk(cfg: Config, actions: seq<Action>)
    requires cfg.maxAttempts > 0
    ensures Inv(cfg, Run(cfg, actions))
  {
    if actions != [] {
      RunOk(cfg, actions[..|actions| - 1]);
      ApplyOk(cfg, Run(cfg, actions[..|actions| - 1]), actions[|actions| - 1]);
    }
  }

  // ---- what holds of every run ----

  /** Every completion in the history was made by the worker that claimed the job last,
      before the end of the lease it then held; and no job has two. */
  lemma CompletedOnceByLatestClaimant(cfg: Config, actions: seq<Action>, i: nat, k: nat)
    requires cfg.maxAttempts > 0
    ensures var log := Run(cfg, actions).log;
            && (i < |log| && log[i].Completion? ==>
                 && LatestClaimant(log[..i], log[i].job) == Some(log[i].worker)
                 && LeaseEnd(log[..i], log[i].job).Some? && log[i].at < LeaseEnd(log[..i], log[i].job).value)
            && (i < k < |log| && log[i].Completion? && log[k].Completion? ==> log[i].job != log[k].job)
  {
    RunOk(cfg, actions);
    var log := Run(cfg, actions).log;
    if i < |log| { assert CompletedByLatestClaimant(log, i); }
    if i < k < |log| && log[i].Completion? && log[k].Completion? && log[i].job == log[k].job {
      var job := log[i].job;
      CountTwo(log, job, i, k);
      SilentUnknown(cfg, Run(cfg, actions), job);
    }
  }

  lemma SilentUnknown(cfg: Config, w: World, job: Id)
    requires Inv(cfg, w)
    ensures Completions(w.log, job) <= 1
  {
    if job !in w.table.rows { SilentLog(w.log, job); }
  }

  lemma {:induction false} CountTwo(log: seq<Entry>, job: Id, i: nat, k: nat)
    requires i < k < |log| && log[i].Completion? && log[k].Completion? && log[i].job == log[k].job == job
    ensures Completions(log, job) >= 2
    decreases |log|
  {
    var n := |log| - 1;
    if k < n { CountTwo(log[..n], job, i, k); } else { CountOne(log[..n], job, i); }
  }

  lemma {:induction false} CountOne(log: seq<Entry>, job: Id, i: nat)
    requires i < |log| && log[i].Completion? && log[i].job == job
    ensures Completions(log, job) >= 1
    decreases |log|
  {
    if i < |log| - 1 { CountOne(log[..|log| - 1], job, i); }
  }

  /** attempts = claims - deferrals, never above max + 1; a result is recorded exactly for SUCCEEDED jobs;
      a due PENDING job can be claimed by anyone. */
  lemma AttemptsBalance(cfg: Config, actions: seq<Action>, job: Id, now: int)
    requires cfg.maxAttempts > 0 && job in Run(cfg, actions).table.rows
    ensures var w := Run(cfg, actions);
            var row := w.table.rows[job];
            && row.attempts == Claims(w.log, job) - Deferrals(w.log, job)
            && row.attempts <= cfg.maxAttempts + 1
            && (row.status == SUCCEEDED <==> job in w.table.completed)
            && (row.status == PENDING ==> row.attempts < cfg.maxAttempts)
            && (row.status == PENDING && row.availableAt <= now ==> CanClaim(w.table, job, now, cfg))
  {
    RunOk(cfg, actions);
    var w := Run(cfg, actions);
    assert JobOk(cfg, w.table.rows[job], w.log, job, ResultOf(w.table, job));
  }

  /** Recorded results are never replaced, whatever stale workers still do. */
  lemma {:induction false} ResultsAreFinal(cfg: Config, actions: seq<Action>, i: nat, k: nat)
    requires cfg.maxAttempts > 0 && i <= k <= |actions|
    ensures ResultsKept(Run(cfg, actions[..i]).table, Run(cfg, actions[..k]).table)
    decreases k
  {
    if i < k {
      ResultsAreFinal(cfg, actions, i, k - 1);
      RunOk(cfg, actions[..k - 1]);
      assert actions[..k][..k - 1] == actions[..k - 1];
      ApplyOk(cfg, Run(cfg, actions[..k - 1]), actions[k - 1]);
    }
  }
}
