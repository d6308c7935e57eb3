/**
 How an attempt of the candidate worker's `processOne` ends (src/candidates/worker.ts:29-100), from every reachable
 world in which the worker owns the job: completed, waiting with its attempt given back, put back, or failed.
 */
module CandidateOutcome {
  import opened Lease
  import opened CandidateStore
  import opened CandidateProtocol
  import opened RetryPolicy

  predicate Holds(w: World, worker: WorkerId, job: Id) {
    job in w.table.rows && w.table.rows[job].status == RUNNING && w.table.rows[job].lockedBy == Some(worker)
  }

  /** The lease of the job runs on. */
  predicate InTime(w: World, job: Id) {
    job in w.table.rows && w.table.rows[job].leaseExpiresAt.Some? && w.now < w.table.rows[job].leaseExpiresAt.value
  }

  /** The worker's attempt throws f at this action: on loading the profile, on fetching the catalogue, on storing the
      result, or because the store refuses the result after the lease ran out. */
  predicate Throws(w: World, worker: WorkerId, a: Action, f: CandidateProtocol.Failure, job: Id, attempt: nat, random: real) {
    || (PcOf(w, worker) == Loading(job, attempt) && a == LoadProfile(worker, Some(f), random))
    || (PcOf(w, worker) == Fetching(job, attempt) && a == FetchFailed(worker, f, random))
    || (PcOf(w, worker).Completing? && PcOf(w, worker) == Completing(job, attempt, PcOf(w, worker).snapshot)
        && a == CompleteCall(worker, FailedBefore(f), random))
    || (PcOf(w, worker).Completing? && PcOf(w, worker) == Completing(job, attempt, PcOf(w, worker).snapshot)
        && a == CompleteCall(worker, Arrived, random) && !InTime(w, job) && f == Thrown(None, None, "Error"))
  }

  /** Nothing differs but the row of one job and the worker, which is done. */
  ghost predicate OnlyThis(before: World, after: World, worker: WorkerId, job: Id) {
    && after.now == before.now && PcOf(after, worker) == Idle
    && after.table.rows.Keys == before.table.rows.Keys && job in before.table.rows
    && (forall j :: j in before.table.rows && j != job ==> after.table.rows[j] == before.table.rows[j])
  }

  /** Waiting for the connection or the rate limit: PENDING, with the attempt given back. */
  ghost predicate Waiting(before: World, after: World, worker: WorkerId, job: Id, delayMs: int, reason: string) {
    && OnlyThis(before, after, worker, job) && after.table.completed == before.table.completed
    && before.table.rows[job].attempts >= 1
    && after.table.rows[job] == Row(PENDING, before.table.rows[job].attempts - 1, before.now + delayMs, None, None, Some(reason))
  }

  /** Put back: PENDING, with the attempt spent. */
  ghost predicate PutBack(before: World, after: World, worker: WorkerId, job: Id, delayMs: int, code: string) {
    && OnlyThis(before, after, worker, job) && after.table.completed == before.table.completed
    && after.table.rows[job] == Row(PENDING, before.table.rows[job].attempts, before.now + delayMs, None, None, Some(code))
  }

  ghost predicate GivenUp(before: World, after: World, worker: WorkerId, job: Id, code: string) {
    && OnlyThis(before, after, worker, job) && after.table.completed == before.table.completed
    && after.table.rows[job]
       == Row(FAILED, before.table.rows[job].attempts, before.table.rows[job].availableAt, None, None, Some(code))
  }

  /** "CATALOG_HTTP_" and the status, with its sign. */
  predicate IsCatalogCode(code: string, status: int) {
    && |code| >= 13 && code[..13] == "CATALOG_HTTP_"
    && if status < 0 then |code| >= 14 && code[13] == '-' && IsDecimal(code[14..], -status) else IsDecimal(code[13..], status)
  }

  predicate IsErrorCode(code: string, f: CandidateProtocol.Failure)
    requires f.Thrown?
  {
    if f.status.Some? && f.status.value != 0 then IsCatalogCode(code, f.status.value) else code == f.name
  }

  /** An error without a status, a timeout, or a server error. */
  predicate Transient(f: CandidateProtocol.Failure)
    requires f.Thrown?
  {
    f.status == None || f.status == Some(408) || (f.status.Some? && f.status.value >= 500)
  }

  /** The wait after a 429: as long as the answer says, if it says so, and the jittered delay otherwise. */
  predicate IsWait(delayMs: int, retryAfterMs: Option<int>, attempt: nat, random: real) {
    if retryAfterMs.Some? && retryAfterMs.value > 0 then delayMs == retryAfterMs.value else IsDelay(delayMs, attempt, random)
  }

  // ---- what the catch block decides ----

  lemma StatusTextIs(status: int)
    ensures IsCatalogCode(StatusText(status), status)
  {
    var code := StatusText(status);
    DecimalIsDecimal(if status < 0 then -status else status);
    if status < 0 {
      assert code == "CATALOG_HTTP_-" + DecimalText(-status);
      assert code[14..] == DecimalText(-status);
    } else {
      assert code[13..] == DecimalText(status);
    }
    hide IsDecimal, DecimalText;
  }

  ghost predicate Decided(cfg: Config, pc: Pc, job: Id, attempt: nat, f: CandidateProtocol.Failure, random: real) {
    if f.ConnectionUnavailable? then pc == Deferring(job, attempt, 30_000, "WAITING_FOR_PRINTFUL_CONNECTION")
    else if f.status == Some(429) then
      pc.Deferring? && pc == Deferring(job, attempt, pc.delayMs, "WAITING_FOR_PRINTFUL_RATE_LIMIT") && IsWait(pc.delayMs, f.retryAfterMs, attempt, random)
    else if Transient(f) && attempt < cfg.maxAttempts then
      pc.Retrying? && pc == Retrying(job, attempt, pc.delayMs, pc.code) && IsDelay(pc.delayMs, attempt, random) && IsErrorCode(pc.code, f)
    else pc.Failing? && pc == Failing(job, pc.code) && IsErrorCode(pc.code, f)
  }

  lemma ErrorDecided(cfg: Config, job: Id, attempt: nat, f: CandidateProtocol.Failure, random: real)
    ensures Decided(cfg, OnError(cfg, job, attempt, f, random), job, attempt, f, random)
  {
    BackoffIsDelay(attempt, random);
    if f.Thrown? && f.status.Some? { StatusTextIs(f.status.value); }
    hide BackoffMs, IsDelay, IsCatalogCode, StatusText;
  }

  lemma ThrowStep(cfg: Config, w: World, worker: WorkerId, a: Action, f: CandidateProtocol.Failure, job: Id, attempt: nat, random: real)
    requires Throws(w, worker, a, f, job, attempt, random)
    ensures Apply(cfg, w, a) == Goto(w, worker, OnError(cfg, job, attempt, f, random))
  {
    hide OnError;
    assert w.log + [] == w.log;
  }

  /** The calls of the catch block, as far as they apply. */
  ghost function CatchBlock(cfg: Config, w: World, worker: WorkerId): World {
    Apply(cfg, Apply(cfg, Apply(cfg, w, DeferCall(worker, Arrived)), RetryCall(worker, Arrived)), FailCall(worker, Arrived))
  }

  lemma IdleStep(cfg: Config, w: World, worker: WorkerId, a: Action)
    requires a in {DeferCall(worker, Arrived), RetryCall(worker, Arrived), FailCall(worker, Arrived)}
    requires var pc := PcOf(w, worker);
             pc == Idle || (pc.Retrying? && !a.RetryCall?) || (pc.Failing? && !a.FailCall?) || (pc.Deferring? && !a.DeferCall?)
    ensures Apply(cfg, w, a) == w
  {
  }

  lemma DeferringEnds(cfg: Config, w: World, thrown: World, worker: WorkerId, job: Id, attempt: nat, delayMs: int, reason: string)
    requires Holds(w, worker, job) && w.table.rows[job].attempts >= 1 && thrown == Goto(w, worker, Deferring(job, attempt, delayMs, reason))
    ensures Waiting(w, CatchBlock(cfg, thrown, worker), worker, job, delayMs, reason)
  {
    var next := Apply(cfg, thrown, DeferCall(worker, Arrived));
    assert Waiting(w, next, worker, job, delayMs, reason);
    hide Apply;
    IdleStep(cfg, next, worker, RetryCall(worker, Arrived));
    IdleStep(cfg, next, worker, FailCall(worker, Arrived));
  }

  lemma RetryingEnds(cfg: Config, w: World, thrown: World, worker: WorkerId, job: Id, attempt: nat, delayMs: int, code: string)
    requires Holds(w, worker, job) && thrown == Goto(w, worker, Retrying(job, attempt, delayMs, code))
    ensures PutBack(w, CatchBlock(cfg, thrown, worker), worker, job, delayMs, code)
  {
    var next := Apply(cfg, thrown, RetryCall(worker, Arrived));
    assert PutBack(w, next, worker, job, delayMs, code);
    hide Apply;
    IdleStep(cfg, thrown, worker, DeferCall(worker, Arrived));
    IdleStep(cfg, next, worker, FailCall(worker, Arrived));
  }

  lemma FailingEnds(cfg: Config, w: World, thrown: World, worker: WorkerId, job: Id, code: string)
    requires Holds(w, worker, job) && thrown == Goto(w, worker, Failing(job, code))
    ensures GivenUp(w, CatchBlock(cfg, thrown, worker), worker, job, code)
  {
    var next := Apply(cfg, thrown, FailCall(worker, Arrived));
    assert GivenUp(w, next, worker, job, code);
    hide Apply;
    IdleStep(cfg, thrown, worker, DeferCall(worker, Arrived));
    IdleStep(cfg, thrown, worker, RetryCall(worker, Arrived));
  }

  // ---- whole attempts, in every run ----

  lemma RunNext(cfg: Config, actions: seq<Action>, a: Action)
    ensures Run(cfg, actions + [a]) == Apply(cfg, Run(cfg, actions), a)
  {
    assert (actions + [a])[..|actions|] == actions;
  }

  lemma CatchRun(cfg: Config, actions: seq<Action>, worker: WorkerId, a: Action)
    ensures Run(cfg, actions + [a, DeferCall(worker, Arrived), RetryCall(worker, Arrived), FailCall(worker, Arrived)])
         == CatchBlock(cfg, Apply(cfg, Run(cfg, actions), a), worker)
  {
    hide Apply, Run;
    var one := actions + [a];
    var two := one + [DeferCall(worker, Arrived)];
    var three := two + [RetryCall(worker, Arrived)];
    RunNext(cfg, actions, a);
    RunNext(cfg, one, DeferCall(worker, Arrived));
    RunNext(cfg, two, RetryCall(worker, Arrived));
    RunNext(cfg, three, FailCall(worker, Arrived));
    assert actions + [a, DeferCall(worker, Arrived), RetryCall(worker, Arrived), FailCall(worker, Arrived)] == three + [FailCall(worker, Arrived)];
  }

  lemma AttemptOfHolder(cfg: Config, w: World, worker: WorkerId, a: Action, f: CandidateProtocol.Failure, job: Id, attempt: nat, random: real)
    requires Inv(cfg, w) && Holds(w, worker, job) && Throws(w, worker, a, f, job, attempt, random)
    ensures 1 <= attempt <= cfg.maxAttempts && w.table.rows[job].attempts == attempt
  {
    assert PcOk(cfg, w.table, worker, PcOf(w, worker));
  }

  /** What comes of f: the store's connection or its rate limit is waited for without spending the attempt, transient
      trouble spends it, and anything else, or trouble in the last attempt, fails the job. */
  ghost predicate Comes(cfg: Config, before: World, after: World, worker: WorkerId, job: Id, attempt: nat, f: CandidateProtocol.Failure, random: real) {
    if f.ConnectionUnavailable? then Waiting(before, after, worker, job, 30_000, "WAITING_FOR_PRINTFUL_CONNECTION")
    else if f.status == Some(429) then
      exists delayMs :: IsWait(delayMs, f.retryAfterMs, attempt, random)
                        && Waiting(before, after, worker, job, delayMs, "WAITING_FOR_PRINTFUL_RATE_LIMIT")
    else if Transient(f) && attempt < cfg.maxAttempts then
      exists delayMs, code :: IsDelay(delayMs, attempt, random) && IsErrorCode(code, f) && PutBack(before, after, worker, job, delayMs, code)
    else exists code :: IsErrorCode(code, f) && GivenUp(before, after, worker, job, code)
  }

  lemma DecidedComes(cfg: Config, w: World, pc: Pc, worker: WorkerId, job: Id, attempt: nat, f: CandidateProtocol.Failure, random: real)
    requires Holds(w, worker, job) && w.table.rows[job].attempts >= 1 && Decided(cfg, pc, job, attempt, f, random)
    ensures Comes(cfg, w, CatchBlock(cfg, Goto(w, worker, pc), worker), worker, job, attempt, f, random)
  {
    hide Waiting, PutBack, GivenUp, CatchBlock, IsErrorCode, IsDelay, Transient;
    var thrown := Goto(w, worker, pc);
    match pc
    case Deferring(_, _, delayMs, reason) => DeferringEnds(cfg, w, thrown, worker, job, attempt, delayMs, reason);
    case Retrying(_, _, delayMs, code) => RetryingEnds(cfg, w, thrown, worker, job, attempt, delayMs, code);
    case Failing(_, code) => FailingEnds(cfg, w, thrown, worker, job, code);
    case _ =>
  }

  /** After an error the owner's catch block does what comes of it. */
  lemma ErrorDecides(cfg: Config, actions: seq<Action>, worker: WorkerId, a: Action, f: CandidateProtocol.Failure, job: Id, attempt: nat, random: real)
    requires cfg.maxAttempts > 0 && Holds(Run(cfg, actions), worker, job)
    requires Throws(Run(cfg, actions), worker, a, f, job, attempt, random)
    ensures Comes(cfg, Run(cfg, actions),
                  Run(cfg, actions + [a, DeferCall(worker, Arrived), RetryCall(worker, Arrived), FailCall(worker, Arrived)]),
                  worker, job, attempt, f, random)
  {
    RunOk(cfg, actions);
    CatchRun(cfg, actions, worker, a);
    hide *;
    var w := Run(cfg, actions);
    AttemptOfHolder(cfg, w, worker, a, f, job, attempt, random);
    ThrowStep(cfg, w, worker, a, f, job, attempt, random);
    ErrorDecided(cfg, job, attempt, f, random);
    DecidedComes(cfg, w, OnError(cfg, job, attempt, f, random), worker, job, attempt, f, random);
  }

  /** A catalogue that arrives while the owner's lease runs is recorded as the job's result. */
  lemma SnapshotCompletes(cfg: Config, actions: seq<Action>, worker: WorkerId, job: Id, attempt: nat, snapshot: Snapshot, random: real)
    requires PcOf(Run(cfg, actions), worker) == Fetching(job, attempt)
    requires Holds(Run(cfg, actions), worker, job) && InTime(Run(cfg, actions), job)
    ensures var before, after := Run(cfg, actions), Run(cfg, actions + [Fetched(worker, snapshot), CompleteCall(worker, Arrived, random)]);
            && OnlyThis(before, after, worker, job) && after.table.completed == before.table.completed[job := snapshot]
            && after.table.rows[job].status == SUCCEEDED && after.table.rows[job].attempts == before.table.rows[job].attempts
            && after.table.rows[job].lockedBy == None && after.table.rows[job].leaseExpiresAt == None
  {
    RunNext(cfg, actions, Fetched(worker, snapshot));
    RunNext(cfg, actions + [Fetched(worker, snapshot)], CompleteCall(worker, Arrived, random));
    assert actions + [Fetched(worker, snapshot)] + [CompleteCall(worker, Arrived, random)]
           == actions + [Fetched(worker, snapshot), CompleteCall(worker, Arrived, random)];
    hide Run, OnError;
  }

  // ---- how an attempt begins ----

  /** Due, or taken by a worker whose lease ran out. */
  predicate Takeable(w: World, job: Id) {
    && job in w.table.rows
    && var row := w.table.rows[job];
    || (row.status == PENDING && row.availableAt <= w.now)
    || (row.status == RUNNING && row.leaseExpiresAt.Some? && row.leaseExpiresAt.value <= w.now)
  }

  /** The job is the worker's under a new lease, with one more attempt; nothing else differs. */
  ghost predicate Taken(cfg: Config, before: World, after: World, worker: WorkerId, job: Id) {
    && job in before.table.rows && after.now == before.now
    && after.table == before.table.(rows := before.table.rows[job := Row(
         RUNNING, before.table.rows[job].attempts + 1, before.table.rows[job].availableAt, Some(worker), Some(before.now + cfg.leaseMs),
         if before.table.rows[job].status == RUNNING then Some("LEASE_EXPIRED") else before.table.rows[job].lastError)])
  }

  lemma ClaimTakes(cfg: Config, w: World, worker: WorkerId, job: Id)
    requires Inv(cfg, w) && PcOf(w, worker) == Idle && Takeable(w, job) && w.table.rows[job].attempts <= cfg.maxAttempts
    ensures var next, attempt := Apply(cfg, w, ClaimJob(worker, job)), w.table.rows[job].attempts + 1;
            && Taken(cfg, w, next, worker, job)
            && PcOf(next, worker) == if attempt > cfg.maxAttempts then Failing(job, "LEASE_EXHAUSTED") else Loading(job, attempt)
  {
    assert JobOk(cfg, w.table.rows[job], w.log, job, ResultOf(w.table, job));
    hide Inv;
  }

  /** A worker without a job takes a due one, or one whose lease ran out, and goes on to fetch the catalogue, provided
      its attempts were not used up before. */
  lemma ClaimBegins(cfg: Config, actions: seq<Action>, worker: WorkerId, job: Id, random: real)
    requires cfg.maxAttempts > 0 && PcOf(Run(cfg, actions), worker) == Idle
    requires Takeable(Run(cfg, actions), job) && Run(cfg, actions).table.rows[job].attempts < cfg.maxAttempts
    ensures var before, after := Run(cfg, actions), Run(cfg, actions + [ClaimJob(worker, job), LoadProfile(worker, None, random)]);
            Taken(cfg, before, after, worker, job) && PcOf(after, worker) == Fetching(job, before.table.rows[job].attempts + 1)
  {
    RunOk(cfg, actions);
    RunNext(cfg, actions, ClaimJob(worker, job));
    RunNext(cfg, actions + [ClaimJob(worker, job)], LoadProfile(worker, None, random));
    assert actions + [ClaimJob(worker, job)] + [LoadProfile(worker, None, random)] == actions + [ClaimJob(worker, job), LoadProfile(worker, None, random)];
    ClaimTakes(cfg, Run(cfg, actions), worker, job);
    LoadFetches(cfg, Run(cfg, actions), Run(cfg, actions + [ClaimJob(worker, job)]), worker, job, random);
    hide *;
  }

  lemma LoadFetches(cfg: Config, before: World, w: World, worker: WorkerId, job: Id, random: real)
    requires Taken(cfg, before, w, worker, job) && PcOf(w, worker) == Loading(job, before.table.rows[job].attempts + 1)
    ensures var next := Apply(cfg, w, LoadProfile(worker, None, random));
            Taken(cfg, before, next, worker, job) && PcOf(next, worker) == Fetching(job, before.table.rows[job].attempts + 1)
  {
    hide OnError;
  }

  /** One whose last attempt let its lease run out is taken once more, to be failed as exhausted. */
  lemma ExhaustedFails(cfg: Config, actions: seq<Action>, worker: WorkerId, job: Id)
    requires cfg.maxAttempts > 0 && PcOf(Run(cfg, actions), worker) == Idle
    requires Takeable(Run(cfg, actions), job) && Run(cfg, actions).table.rows[job].attempts == cfg.maxAttempts
    ensures var before, claimed, after := Run(cfg, actions), Run(cfg, actions + [ClaimJob(worker, job)]),
                Run(cfg, actions + [ClaimJob(worker, job), FailCall(worker, Arrived)]);
            Taken(cfg, before, claimed, worker, job) && GivenUp(claimed, after, worker, job, "LEASE_EXHAUSTED")
  {
    RunOk(cfg, actions);
    RunNext(cfg, actions, ClaimJob(worker, job));
    RunNext(cfg, actions + [ClaimJob(worker, job)], FailCall(worker, Arrived));
    assert actions + [ClaimJob(worker, job)] + [FailCall(worker, Arrived)] == actions + [ClaimJob(worker, job), FailCall(worker, Arrived)];
    ClaimTakes(cfg, Run(cfg, actions), worker, job);
    FailGivesUp(cfg, Run(cfg, actions + [ClaimJob(worker, job)]), worker, job, "LEASE_EXHAUSTED");
    hide *;
  }

  lemma FailGivesUp(cfg: Config, w: World, worker: WorkerId, job: Id, code: string)
    requires Holds(w, worker, job) && PcOf(w, worker) == Failing(job, code)
    ensures GivenUp(w, Apply(cfg, w, FailCall(worker, Arrived)), worker, job, code)
  {
  }

  /** An open job can be claimed at some time exactly while its attempts do not exceed the maximum. */
  lemma OpenIsClaimable(cfg: Config, actions: seq<Action>, job: Id)
    requires cfg.maxAttempts > 0 && job in Run(cfg, actions).table.rows
    requires Run(cfg, actions).table.rows[job].status in {PENDING, RUNNING}
    ensures (exists now :: CanClaim(Run(cfg, actions).table, job, now, cfg)) <==> Run(cfg, actions).table.rows[job].attempts <= cfg.maxAttempts
  {
    RunOk(cfg, actions);
    hide Run;
    var w := Run(cfg, actions);
    assert JobOk(cfg, w.table.rows[job], w.log, job, ResultOf(w.table, job));
    var row := w.table.rows[job];
    var now := if row.status == PENDING then row.availableAt else row.leaseExpiresAt.value;
    assert row.attempts <= cfg.maxAttempts ==> CanClaim(w.table, job, now, cfg);
  }
}
