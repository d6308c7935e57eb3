/**
 How an attempt of `GenerationWorker.processOne` ends (src/jobs/generation-worker.ts:22-82), from every reachable
 world in which the worker owns the job: put back with a delay, failed for good, or completed.
 */
module GenerationOutcome {
  import opened Lease
  import opened GenerationDatabase
  import opened RetryPolicy
  import opened GenerationProtocol

  // ---- what is said of the world before and after ----

  predicate Holds(w: World, worker: WorkerId, job: Id, revision: Id) {
    && job in w.db.jobs && w.db.jobs[job].row.status == RUNNING && w.db.jobs[job].row.lockedBy == Some(worker)
    && w.db.jobs[job].revisionId == revision
  }

  /** The worker's attempt throws f at this action: in the read, from the generator, on an answer against the
      schema, or when the result could not be stored. */
  predicate Throws(w: World, worker: WorkerId, a: Action, f: Failure, job: Id, revision: Id, attempt: nat) {
    || (PcOf(w, worker) == Loading(job, revision, attempt) && a == Load(worker, Some(f)))
    || (PcOf(w, worker) == Generating(job, revision, attempt) && a == GeneratorFailed(worker, f))
    || (PcOf(w, worker) == Generating(job, revision, attempt)
        && a.Generated? && a.worker == worker && !a.schemaValid && f == Failure(true, None, None, Some("Error")))
    || (PcOf(w, worker).Completing? && PcOf(w, worker) == Completing(job, revision, attempt, PcOf(w, worker).data)
        && a == CompleteCall(worker, FailedBefore(f)))
  }

  /** Nothing differs but the row of one job, one revision, and the worker, which is done. */
  ghost predicate OnlyThese(before: World, after: World, worker: WorkerId, job: Id, revision: Id) {
    && after.now == before.now && PcOf(after, worker) == Idle
    && after.db.jobs.Keys == before.db.jobs.Keys && after.db.revisions.Keys == before.db.revisions.Keys
    && after.db.workspaces == before.db.workspaces && after.db.profiles == before.db.profiles
    && (forall j :: j in before.db.jobs && j != job ==> after.db.jobs[j] == before.db.jobs[j])
    && (forall r :: r in before.db.revisions && r != revision ==> after.db.revisions[r] == before.db.revisions[r])
    && job in before.db.jobs && after.db.jobs[job].revisionId == before.db.jobs[job].revisionId
    && revision in before.db.revisions
  }

  /** Put back: due after the jittered delay, between four seconds and six minutes, with its attempts as they are. */
  ghost predicate PutBack(before: World, after: World, worker: WorkerId, job: Id, revision: Id, attempt: nat, f: Failure, random: real) {
    && OnlyThese(before, after, worker, job, revision) && after.db.outbox == before.db.outbox
    && after.db.revisions[revision] == before.db.revisions[revision] && after.db.revisions[revision].status == GENERATING
    && var row := after.db.jobs[job].row;
    && row.status == PENDING && row.attempts == before.db.jobs[job].row.attempts == attempt
    && row.lockedBy == None && row.leaseExpiresAt == None
    && 4_000 <= row.availableAt - before.now <= 360_000 && IsDelay(row.availableAt - before.now, attempt, random)
    && row.lastError.Some? && IsFailureCode(row.lastError.value, f)
  }

  /** Failed for good: the revision and its job, with the same code. */
  ghost predicate GivenUp(before: World, after: World, worker: WorkerId, job: Id, revision: Id, code: string) {
    && OnlyThese(before, after, worker, job, revision) && after.db.outbox == before.db.outbox
    && after.db.revisions[revision] == before.db.revisions[revision].(status := GENERATION_FAILED, failureCode := Some(code))
    && var row := after.db.jobs[job].row;
    && row.status == FAILED && row.attempts == before.db.jobs[job].row.attempts
    && row.lockedBy == None && row.leaseExpiresAt == None && row.lastError == Some(code)
  }

  /** Completed: the result is stored for review and announced, and the job has succeeded. */
  ghost predicate Done(before: World, after: World, worker: WorkerId, job: Id, revision: Id, data: Document) {
    && OnlyThese(before, after, worker, job, revision) && after.db.outbox == before.db.outbox + [Event(ReviewRequired, revision)]
    && after.db.revisions[revision] == before.db.revisions[revision].(status := REVIEW_REQUIRED, profileData := Some(data))
    && var row := after.db.jobs[job].row;
    && row.status == SUCCEEDED && row.attempts == before.db.jobs[job].row.attempts
    && row.lockedBy == None && row.leaseExpiresAt == None
  }

  // ---- single steps ----

  lemma RunNext(cfg: Config, actions: seq<Action>, a: Action)
    ensures Run(cfg, actions + [a]) == Apply(cfg, Run(cfg, actions), a)
  {
    assert (actions + [a])[..|actions|] == actions;
  }

  lemma ErrorExactly(cfg: Config, job: Id, revision: Id, attempt: nat, f: Failure) returns (code: string)
    ensures IsFailureCode(code, f)
    ensures OnError(cfg, job, revision, attempt, f)
            == if Transient(f) && attempt < cfg.maxAttempts then Retrying(job, revision, attempt, code) else Failing(job, revision, code)
  {
    ClassifiedExactly(f);
    hide Transient, IsFailureCode, Classify;
    code := Classify(f).code;
  }

  lemma ThrowStep(cfg: Config, w: World, worker: WorkerId, a: Action, f: Failure, job: Id, revision: Id, attempt: nat)
    requires Throws(w, worker, a, f, job, revision, attempt)
    ensures Apply(cfg, w, a) == Goto(w, worker, OnError(cfg, job, revision, attempt, f))
  {
    hide OnError, CompleteGeneration;
  }

  /** From an owned job of a generating revision, the worker's own calls have their full effect. */
  ghost predicate Working(w: World, worker: WorkerId, job: Id, revision: Id) {
    && Holds(w, worker, job, revision) && revision in w.db.revisions && w.db.revisions[revision].status == GENERATING
    && forall j :: j in w.db.jobs && w.db.jobs[j].revisionId == revision ==> j == job
  }

  lemma HolderWorks(cfg: Config, w: World, worker: WorkerId, job: Id, revision: Id)
    requires Inv(cfg, w) && Holds(w, worker, job, revision)
    ensures Working(w, worker, job, revision)
  {
    assert Mirrors(w.db.jobs[job].row.status, w.db.revisions[revision].status);
  }

  lemma RetryingStep(cfg: Config, w: World, worker: WorkerId, job: Id, revision: Id, attempt: nat, code: string, random: real)
    requires PcOf(w, worker) == Retrying(job, revision, attempt, code) && job in w.db.jobs
    requires Owned(w.db.jobs[job].row, worker)
    ensures Apply(cfg, w, RetryCall(worker, random, Arrived))
         == Goto(w.(db := WithRow(w.db, job, Requeued(w.db.jobs[job].row, w.now + BackoffMs(attempt, random), code))), worker, Idle)
  {
    hide BackoffMs, Requeued;
  }

  /** The calls of a worker that has nothing to do change nothing. */
  lemma IdleStep(cfg: Config, w: World, worker: WorkerId, a: Action)
    requires a == MarkFailedCall(worker, Arrived) || a == AckFailureCall(worker, Arrived)
             || (a.RetryCall? && a.worker == worker && a.reply == Arrived)
    requires PcOf(w, worker) == Idle || (PcOf(w, worker).Failing? && a.RetryCall?)
    ensures Apply(cfg, w, a) == w
  {
    hide BackoffMs, FailGeneration, AcknowledgeFailure;
  }

  lemma MarkFailedArrives(cfg: Config, w: World, worker: WorkerId, job: Id, revision: Id, code: string)
    requires PcOf(w, worker) == Failing(job, revision, code) && revision in w.db.revisions && w.db.revisions[revision].status == GENERATING
    ensures Apply(cfg, w, MarkFailedCall(worker, Arrived))
         == Goto(w.(db := FailGeneration(w.db, revision, code).0), worker, AckingFailure(job, revision, code))
  {
  }

  lemma FailedRows(db: Db, job: Id, revision: Id, code: string)
    requires job in db.jobs && db.jobs[job].revisionId == revision && revision in db.revisions && db.revisions[revision].status == GENERATING
    requires forall j :: j in db.jobs && db.jobs[j].revisionId == revision ==> j == job
    ensures FailGeneration(db, revision, code).0
         == WithRow(db, job, Closed(db.jobs[job].row, FAILED, Some(code)))
            .(revisions := db.revisions[revision := db.revisions[revision].(status := GENERATION_FAILED, failureCode := Some(code))])
  {
    var closed := CloseJobsOf(db.jobs, revision, FAILED, Some(code));
    assert closed == db.jobs[job := db.jobs[job].(row := Closed(db.jobs[job].row, FAILED, Some(code)))];
  }

  lemma AckFailureArrives(cfg: Config, w: World, worker: WorkerId, job: Id, revision: Id, code: string)
    requires PcOf(w, worker) == AckingFailure(job, revision, code) && job in w.db.jobs
    requires w.db.jobs[job].row == Closed(w.db.jobs[job].row, FAILED, Some(code))
    ensures Apply(cfg, w, AckFailureCall(worker, Arrived)) == Goto(w, worker, Idle)
  {
    assert w.db.jobs[job := w.db.jobs[job]] == w.db.jobs;
  }

  /** Failing, failed, acknowledged. */
  lemma FailingEnds(cfg: Config, w: World, worker: WorkerId, job: Id, revision: Id, code: string)
    requires Working(w, worker, job, revision) && PcOf(w, worker) == Failing(job, revision, code)
    ensures GivenUp(w, Apply(cfg, Apply(cfg, w, MarkFailedCall(worker, Arrived)), AckFailureCall(worker, Arrived)), worker, job, revision, code)
  {
    MarkFailedArrives(cfg, w, worker, job, revision, code);
    FailedRows(w.db, job, revision, code);
    var marked := Goto(w.(db := FailGeneration(w.db, revision, code).0), worker, AckingFailure(job, revision, code));
    hide FailGeneration, Apply;
    AckFailureArrives(cfg, marked, worker, job, revision, code);
  }

  lemma RetryingEnds(cfg: Config, w: World, worker: WorkerId, job: Id, revision: Id, attempt: nat, code: string, f: Failure, random: real)
    requires Working(w, worker, job, revision) && PcOf(w, worker) == Retrying(job, revision, attempt, code)
    requires w.db.jobs[job].row.attempts == attempt && IsFailureCode(code, f) && 0.0 <= random < 1.0
    ensures var after := Apply(cfg, w, RetryCall(worker, random, Arrived));
            PutBack(w, after, worker, job, revision, attempt, f, random)
  {
    RetryingStep(cfg, w, worker, job, revision, attempt, code, random);
    BackoffBounds(attempt, attempt, random);
    BackoffIsDelay(attempt, random);
    hide Apply, BackoffMs, IsDelay, IsFailureCode;
  }

  // ---- whole attempts, in every run ----

  /** The four actions of an attempt that throws: the error, and the calls of the catch block as far as they apply. */
  function Catch(worker: WorkerId, a: Action, random: real): seq<Action> {
    [a, RetryCall(worker, random, Arrived), MarkFailedCall(worker, Arrived), AckFailureCall(worker, Arrived)]
  }

  lemma CatchRun(cfg: Config, actions: seq<Action>, worker: WorkerId, a: Action, random: real)
    ensures Run(cfg, actions + Catch(worker, a, random))
         == Apply(cfg, Apply(cfg, Apply(cfg, Apply(cfg, Run(cfg, actions), a), RetryCall(worker, random, Arrived)),
                                MarkFailedCall(worker, Arrived)), AckFailureCall(worker, Arrived))
  {
    hide Apply, Run;
    var one := actions + [a];
    var two := one + [RetryCall(worker, random, Arrived)];
    var three := two + [MarkFailedCall(worker, Arrived)];
    RunNext(cfg, actions, a);
    RunNext(cfg, one, RetryCall(worker, random, Arrived));
    RunNext(cfg, two, MarkFailedCall(worker, Arrived));
    RunNext(cfg, three, AckFailureCall(worker, Arrived));
    assert actions + Catch(worker, a, random) == three + [AckFailureCall(worker, Arrived)];
  }

  lemma AttemptOfHolder(cfg: Config, w: World, worker: WorkerId, a: Action, f: Failure, job: Id, revision: Id, attempt: nat)
    requires Inv(cfg, w) && Holds(w, worker, job, revision) && Throws(w, worker, a, f, job, revision, attempt)
    ensures w.db.jobs[job].row.attempts == attempt
  {
    assert PcOk(cfg, w.db, worker, PcOf(w, worker));
  }

  lemma ThrownAway(cfg: Config, w: World, worker: WorkerId, a: Action, f: Failure, job: Id, revision: Id, attempt: nat, random: real)
    requires Inv(cfg, w) && Holds(w, worker, job, revision) && Throws(w, worker, a, f, job, revision, attempt) && 0.0 <= random < 1.0
    ensures var after := Apply(cfg, Apply(cfg, Apply(cfg, Apply(cfg, w, a), RetryCall(worker, random, Arrived)),
                                              MarkFailedCall(worker, Arrived)), AckFailureCall(worker, Arrived));
            if Transient(f) && attempt < cfg.maxAttempts
            then PutBack(w, after, worker, job, revision, attempt, f, random)
            else exists code :: IsFailureCode(code, f) && GivenUp(w, after, worker, job, revision, code)
  {
    HolderWorks(cfg, w, worker, job, revision);
    AttemptOfHolder(cfg, w, worker, a, f, job, revision, attempt);
    ThrowStep(cfg, w, worker, a, f, job, revision, attempt);
    var code := ErrorExactly(cfg, job, revision, attempt, f);
    hide *;
    var thrown := Goto(w, worker, OnError(cfg, job, revision, attempt, f));
    if Transient(f) && attempt < cfg.maxAttempts {
      PutBackFrom(cfg, w, thrown, worker, job, revision, attempt, code, f, random);
    } else {
      GivenUpFrom(cfg, w, thrown, worker, job, revision, code, random);
    }
  }

  lemma PutBackFrom(cfg: Config, w: World, thrown: World, worker: WorkerId, job: Id, revision: Id, attempt: nat, code: string, f: Failure, random: real)
    requires Working(w, worker, job, revision) && thrown == Goto(w, worker, Retrying(job, revision, attempt, code))
    requires w.db.jobs[job].row.attempts == attempt && IsFailureCode(code, f) && 0.0 <= random < 1.0
    ensures var after := Apply(cfg, Apply(cfg, Apply(cfg, thrown, RetryCall(worker, random, Arrived)),
                                          MarkFailedCall(worker, Arrived)), AckFailureCall(worker, Arrived));
            PutBack(w, after, worker, job, revision, attempt, f, random)
  {
    hide Apply, IsFailureCode, IsDelay;
    RetryingEnds(cfg, thrown, worker, job, revision, attempt, code, f, random);
    var back := Apply(cfg, thrown, RetryCall(worker, random, Arrived));
    IdleStep(cfg, back, worker, MarkFailedCall(worker, Arrived));
    IdleStep(cfg, back, worker, AckFailureCall(worker, Arrived));
  }

  lemma GivenUpFrom(cfg: Config, w: World, thrown: World, worker: WorkerId, job: Id, revision: Id, code: string, random: real)
    requires Working(w, worker, job, revision) && thrown == Goto(w, worker, Failing(job, revision, code))
    ensures var after := Apply(cfg, Apply(cfg, Apply(cfg, thrown, RetryCall(worker, random, Arrived)),
                                          MarkFailedCall(worker, Arrived)), AckFailureCall(worker, Arrived));
            GivenUp(w, after, worker, job, revision, code)
  {
    hide Apply;
    IdleStep(cfg, thrown, worker, RetryCall(worker, random, Arrived));
    FailingEnds(cfg, thrown, worker, job, revision, code);
  }

  /** After an error the owner's catch block puts the job back exactly if the error is transient and attempts are left;
      otherwise the revision and the job have failed. */
  lemma ErrorDecides(cfg: Config, actions: seq<Action>, worker: WorkerId, a: Action, f: Failure, job: Id, revision: Id, attempt: nat, random: real)
    requires cfg.maxAttempts > 0 && 0.0 <= random < 1.0
    requires Holds(Run(cfg, actions), worker, job, revision)
    requires Throws(Run(cfg, actions), worker, a, f, job, revision, attempt)
    ensures var before, after := Run(cfg, actions), Run(cfg, actions + Catch(worker, a, random));
            if Transient(f) && attempt < cfg.maxAttempts
            then PutBack(before, after, worker, job, revision, attempt, f, random)
            else exists code :: IsFailureCode(code, f) && GivenUp(before, after, worker, job, revision, code)
  {
    RunOk(cfg, actions);
    CatchRun(cfg, actions, worker, a, random);
    hide *;
    ThrownAway(cfg, Run(cfg, actions), worker, a, f, job, revision, attempt, random);
  }

  lemma CompletedRows(db: Db, job: Id, revision: Id, data: Document)
    requires job in db.jobs && db.jobs[job].revisionId == revision && revision in db.revisions && db.revisions[revision].status == GENERATING
    requires forall j :: j in db.jobs && db.jobs[j].revisionId == revision ==> j == job
    ensures CompleteGeneration(db, revision, data).1 == Committed
    ensures CompleteGeneration(db, revision, data).0
         == WithRow(db, job, Closed(db.jobs[job].row, SUCCEEDED, db.jobs[job].row.lastError))
            .(revisions := db.revisions[revision := db.revisions[revision].(status := REVIEW_REQUIRED, profileData := Some(data))],
              outbox := db.outbox + [Event(ReviewRequired, revision)])
  {
    var closed := CloseJobsOf(db.jobs, revision, SUCCEEDED, None);
    assert closed == db.jobs[job := db.jobs[job].(row := Closed(db.jobs[job].row, SUCCEEDED, db.jobs[job].row.lastError))];
    assert HasJob(db.jobs, revision);
  }

  lemma CompleteArrives(cfg: Config, w: World, worker: WorkerId, job: Id, revision: Id, attempt: nat, data: Document)
    requires PcOf(w, worker) == Completing(job, revision, attempt, data) && CompleteGeneration(w.db, revision, data).1 == Committed
    ensures Apply(cfg, w, CompleteCall(worker, Arrived))
         == Goto(w.(db := CompleteGeneration(w.db, revision, data).0), worker, AckingSuccess(job, revision))
  {
    hide CompleteGeneration;
  }

  lemma AckSuccessArrives(cfg: Config, w: World, worker: WorkerId, job: Id, revision: Id)
    requires PcOf(w, worker) == AckingSuccess(job, revision) && job in w.db.jobs
    requires w.db.jobs[job].row == Closed(w.db.jobs[job].row, SUCCEEDED, w.db.jobs[job].row.lastError)
    ensures Apply(cfg, w, AckSuccessCall(worker, Arrived)) == Goto(w, worker, Idle)
  {
    assert w.db.jobs[job := w.db.jobs[job]] == w.db.jobs;
  }

  lemma GeneratedArrives(cfg: Config, w: World, worker: WorkerId, job: Id, revision: Id, attempt: nat, data: Document)
    requires PcOf(w, worker) == Generating(job, revision, attempt)
    ensures Apply(cfg, w, Generated(worker, data, true)) == Goto(w, worker, Completing(job, revision, attempt, data))
  {
    hide OnError;
  }

  lemma GeneratingEnds(cfg: Config, w: World, worker: WorkerId, job: Id, revision: Id, attempt: nat, data: Document)
    requires Working(w, worker, job, revision) && PcOf(w, worker) == Generating(job, revision, attempt)
    ensures Done(w, Apply(cfg, Apply(cfg, Apply(cfg, w, Generated(worker, data, true)), CompleteCall(worker, Arrived)),
                          AckSuccessCall(worker, Arrived)), worker, job, revision, data)
  {
    GeneratedArrives(cfg, w, worker, job, revision, attempt, data);
    CompletedRows(w.db, job, revision, data);
    var answered := Goto(w, worker, Completing(job, revision, attempt, data));
    CompleteArrives(cfg, answered, worker, job, revision, attempt, data);
    hide Apply, CompleteGeneration, HasJob;
    var stored := Goto(answered.(db := CompleteGeneration(w.db, revision, data).0), worker, AckingSuccess(job, revision));
    AckSuccessArrives(cfg, stored, worker, job, revision);
  }

  lemma ThreeRun(cfg: Config, actions: seq<Action>, a: Action, b: Action, c: Action)
    ensures Run(cfg, actions + [a, b, c]) == Apply(cfg, Apply(cfg, Apply(cfg, Run(cfg, actions), a), b), c)
  {
    hide Apply, Run;
    RunNext(cfg, actions, a);
    RunNext(cfg, actions + [a], b);
    RunNext(cfg, actions + [a] + [b], c);
    assert actions + [a, b, c] == actions + [a] + [b] + [c];
  }

  /** An answer that fits the schema, stored and acknowledged by the owner, is the revision's result. */
  lemma AnswerCompletes(cfg: Config, actions: seq<Action>, worker: WorkerId, job: Id, revision: Id, attempt: nat, data: Document)
    requires cfg.maxAttempts > 0
    requires Holds(Run(cfg, actions), worker, job, revision) && PcOf(Run(cfg, actions), worker) == Generating(job, revision, attempt)
    ensures Done(Run(cfg, actions),
                 Run(cfg, actions + [Generated(worker, data, true), CompleteCall(worker, Arrived), AckSuccessCall(worker, Arrived)]),
                 worker, job, revision, data)
  {
    RunOk(cfg, actions);
    ThreeRun(cfg, actions, Generated(worker, data, true), CompleteCall(worker, Arrived), AckSuccessCall(worker, Arrived));
    hide *;
    HolderWorks(cfg, Run(cfg, actions), worker, job, revision);
    GeneratingEnds(cfg, Run(cfg, actions), worker, job, revision, attempt, data);
  }

  // ---- how an attempt begins ----

  /** Due, or taken by a worker whose lease ran out. */
  predicate Takeable(w: World, job: Id) {
    && job in w.db.jobs
    && var row := w.db.jobs[job].row;
    || (row.status == PENDING && row.availableAt <= w.now)
    || (row.status == RUNNING && row.leaseExpiresAt.Some? && row.leaseExpiresAt.value <= w.now)
  }

  /** The job is the worker's under a new lease, with one more attempt; only its row differs, and the worker. */
  ghost predicate Taken(cfg: Config, before: World, after: World, worker: WorkerId, job: Id) {
    && job in before.db.jobs && Holds(after, worker, job, before.db.jobs[job].revisionId)
    && after.now == before.now && after.db.jobs.Keys == before.db.jobs.Keys && after.db.(jobs := before.db.jobs) == before.db
    && (forall j :: j in before.db.jobs && j != job ==> after.db.jobs[j] == before.db.jobs[j])
    && after.db.jobs[job].row.attempts == before.db.jobs[job].row.attempts + 1
    && after.db.jobs[job].row.leaseExpiresAt == Some(before.now + cfg.leaseMs)
    && after.db.jobs[job].row.lastError
       == if before.db.jobs[job].row.status == RUNNING then Some("LEASE_EXPIRED") else before.db.jobs[job].row.lastError
  }

  lemma OpenIsGenerating(cfg: Config, w: World, job: Id)
    requires Inv(cfg, w) && job in w.db.jobs && w.db.jobs[job].row.status in {PENDING, RUNNING}
    ensures w.db.jobs[job].revisionId in w.db.revisions && w.db.revisions[w.db.jobs[job].revisionId].status == GENERATING
    ensures forall j :: j in w.db.jobs && w.db.jobs[j].revisionId == w.db.jobs[job].revisionId ==> j == job
  {
    assert Mirrors(w.db.jobs[job].row.status, w.db.revisions[w.db.jobs[job].revisionId].status);
    hide Lease.Consistent;
  }

  lemma TakeableIsClaimable(cfg: Config, w: World, job: Id)
    requires Inv(cfg, w) && Takeable(w, job) && w.db.jobs[job].row.attempts <= cfg.maxAttempts
    ensures CanClaim(w.db, job, w.now, cfg)
  {
    assert Lease.Consistent(w.db.jobs[job].row, cfg.maxAttempts);
  }

  lemma ClaimIs(cfg: Config, w: World, worker: WorkerId, job: Id)
    requires PcOf(w, worker) == Idle && CanClaim(w.db, job, w.now, cfg)
    ensures var row := Claimed(w.db.jobs[job].row, worker, w.now, cfg.leaseMs, true);
            Apply(cfg, w, ClaimJob(worker, job))
            == Goto(w.(db := WithRow(w.db, job, row)), worker,
                    if row.attempts > cfg.maxAttempts then Failing(job, w.db.jobs[job].revisionId, "LEASE_EXHAUSTED")
                    else Loading(job, w.db.jobs[job].revisionId, row.attempts))
  {
  }

  lemma RowTaken(cfg: Config, w: World, worker: WorkerId, job: Id, pc: Pc)
    requires job in w.db.jobs
    ensures Taken(cfg, w, Goto(w.(db := WithRow(w.db, job, Claimed(w.db.jobs[job].row, worker, w.now, cfg.leaseMs, true))), worker, pc), worker, job)
  {
  }

  lemma ClaimTakes(cfg: Config, w: World, worker: WorkerId, job: Id)
    requires Inv(cfg, w) && PcOf(w, worker) == Idle && Takeable(w, job) && w.db.jobs[job].row.attempts <= cfg.maxAttempts
    ensures var next, revision, attempt := Apply(cfg, w, ClaimJob(worker, job)), w.db.jobs[job].revisionId, w.db.jobs[job].row.attempts + 1;
            && Taken(cfg, w, next, worker, job) && Working(next, worker, job, revision) && next.calls == w.calls
            && PcOf(next, worker) == if attempt > cfg.maxAttempts then Failing(job, revision, "LEASE_EXHAUSTED") else Loading(job, revision, attempt)
  {
    TakeableIsClaimable(cfg, w, job);
    OpenIsGenerating(cfg, w, job);
    ClaimIs(cfg, w, worker, job);
    hide Inv, Takeable, Apply, CanClaim;
    var row := Claimed(w.db.jobs[job].row, worker, w.now, cfg.leaseMs, true);
    RowTaken(cfg, w, worker, job, PcOf(Apply(cfg, w, ClaimJob(worker, job)), worker));
    TakenWorks(cfg, w, Apply(cfg, w, ClaimJob(worker, job)), worker, job);
  }

  lemma TakenWorks(cfg: Config, before: World, after: World, worker: WorkerId, job: Id)
    requires Taken(cfg, before, after, worker, job)
    requires var revision := before.db.jobs[job].revisionId;
             && revision in before.db.revisions && before.db.revisions[revision].status == GENERATING
             && forall j :: j in before.db.jobs && before.db.jobs[j].revisionId == revision ==> j == job
    ensures Working(after, worker, job, before.db.jobs[job].revisionId)
  {
    assert after.db.revisions == before.db.revisions;
  }

  lemma LoadCalls(cfg: Config, w: World, worker: WorkerId, job: Id, revision: Id, attempt: nat)
    requires PcOf(w, worker) == Loading(job, revision, attempt) && Working(w, worker, job, revision)
    ensures Apply(cfg, w, Load(worker, None)) == Goto(w.(calls := w.calls + [(job, attempt)]), worker, Generating(job, revision, attempt))
  {
    hide OnError;
  }

  /** The job is taken, and the generator has been called for its next attempt. */
  ghost predicate Begun(cfg: Config, before: World, after: World, worker: WorkerId, job: Id) {
    && Taken(cfg, before, after, worker, job)
    && var attempt := before.db.jobs[job].row.attempts + 1;
    && PcOf(after, worker) == Generating(job, before.db.jobs[job].revisionId, attempt)
    && after.calls == before.calls + [(job, attempt)]
  }

  lemma TakenAndLoaded(cfg: Config, w: World, worker: WorkerId, job: Id)
    requires Inv(cfg, w) && PcOf(w, worker) == Idle && Takeable(w, job) && w.db.jobs[job].row.attempts < cfg.maxAttempts
    ensures Begun(cfg, w, Apply(cfg, Apply(cfg, w, ClaimJob(worker, job)), Load(worker, None)), worker, job)
  {
    ClaimTakes(cfg, w, worker, job);
    LoadBegins(cfg, w, Apply(cfg, w, ClaimJob(worker, job)), worker, job, w.db.jobs[job].revisionId, w.db.jobs[job].row.attempts + 1);
    hide *;
  }

  lemma LoadBegins(cfg: Config, w: World, claimed: World, worker: WorkerId, job: Id, revision: Id, attempt: nat)
    requires Taken(cfg, w, claimed, worker, job) && claimed.calls == w.calls && Working(claimed, worker, job, revision)
    requires PcOf(claimed, worker) == Loading(job, revision, attempt)
    requires revision == w.db.jobs[job].revisionId && attempt == w.db.jobs[job].row.attempts + 1
    ensures Begun(cfg, w, Apply(cfg, claimed, Load(worker, None)), worker, job)
  {
    LoadCalls(cfg, claimed, worker, job, revision, attempt);
    hide Apply, Working;
  }

  /** A worker without a job takes a due one, or one whose lease ran out, and calls the generator for it, provided its
      attempts were not used up before. */
  lemma ClaimBegins(cfg: Config, actions: seq<Action>, worker: WorkerId, job: Id)
    requires cfg.maxAttempts > 0 && PcOf(Run(cfg, actions), worker) == Idle
    requires Takeable(Run(cfg, actions), job) && Run(cfg, actions).db.jobs[job].row.attempts < cfg.maxAttempts
    ensures Begun(cfg, Run(cfg, actions), Run(cfg, actions + [ClaimJob(worker, job), Load(worker, None)]), worker, job)
  {
    RunOk(cfg, actions);
    TwoRun(cfg, actions, ClaimJob(worker, job), Load(worker, None));
    hide Run, Inv, Apply, Begun;
    TakenAndLoaded(cfg, Run(cfg, actions), worker, job);
  }

  lemma TwoRun(cfg: Config, actions: seq<Action>, a: Action, b: Action)
    ensures Run(cfg, actions + [a, b]) == Apply(cfg, Apply(cfg, Run(cfg, actions), a), b)
  {
    hide Apply, Run;
    RunNext(cfg, actions, a);
    RunNext(cfg, actions + [a], b);
    assert actions + [a, b] == actions + [a] + [b];
  }

  /** A job whose last attempt let its lease run out is claimed once more, to be failed as exhausted: the generator is
      not called. */
  lemma ExhaustedFails(cfg: Config, actions: seq<Action>, worker: WorkerId, job: Id)
    requires cfg.maxAttempts > 0 && PcOf(Run(cfg, actions), worker) == Idle
    requires Takeable(Run(cfg, actions), job) && Run(cfg, actions).db.jobs[job].row.attempts == cfg.maxAttempts
    ensures var before, claimed, after := Run(cfg, actions), Run(cfg, actions + [ClaimJob(worker, job)]),
                Run(cfg, actions + [ClaimJob(worker, job), MarkFailedCall(worker, Arrived), AckFailureCall(worker, Arrived)]);
            && Taken(cfg, before, claimed, worker, job) && claimed.calls == before.calls
            && GivenUp(claimed, after, worker, job, before.db.jobs[job].revisionId, "LEASE_EXHAUSTED")
  {
    RunOk(cfg, actions);
    RunNext(cfg, actions, ClaimJob(worker, job));
    ThreeRun(cfg, actions, ClaimJob(worker, job), MarkFailedCall(worker, Arrived), AckFailureCall(worker, Arrived));
    hide *;
    ClaimTakes(cfg, Run(cfg, actions), worker, job);
    FailingEnds(cfg, Run(cfg, actions + [ClaimJob(worker, job)]), worker, job, Run(cfg, actions).db.jobs[job].revisionId, "LEASE_EXHAUSTED");
  }

  // ---- which open jobs can still be taken ----

  /** An open job can be claimed at some time exactly while its attempts do not exceed the maximum: the claim that
      exhausts them is the last, so that worker has to finish the job. */
  lemma OpenIsClaimable(cfg: Config, actions: seq<Action>, job: Id)
    requires cfg.maxAttempts > 0 && job in Run(cfg, actions).db.jobs
    requires Run(cfg, actions).db.jobs[job].row.status in {PENDING, RUNNING}
    ensures (exists now :: CanClaim(Run(cfg, actions).db, job, now, cfg)) <==> Run(cfg, actions).db.jobs[job].row.attempts <= cfg.maxAttempts
  {
    RunOk(cfg, actions);
    hide Run;
    var row := Run(cfg, actions).db.jobs[job].row;
    assert Lease.Consistent(row, cfg.maxAttempts);
    var now := if row.status == PENDING then row.availableAt else row.leaseExpiresAt.value;
    assert row.attempts <= cfg.maxAttempts ==> CanClaim(Run(cfg, actions).db, job, now, cfg);
  }

  /** If it does not, because it crashes on the way, the job stays RUNNING and its revision GENERATING, and nobody can
      claim the job at any time. */
  lemma CrashAfterExhaustion(cfg: Config, actions: seq<Action>, worker: WorkerId, job: Id, now: int)
    requires cfg.maxAttempts > 0 && PcOf(Run(cfg, actions), worker) == Idle
    requires Takeable(Run(cfg, actions), job) && Run(cfg, actions).db.jobs[job].row.attempts == cfg.maxAttempts
    ensures var before, after := Run(cfg, actions), Run(cfg, actions + [ClaimJob(worker, job), Crash(worker)]);
            && Taken(cfg, before, after, worker, job) && !CanClaim(after.db, job, now, cfg)
            && before.db.jobs[job].revisionId in after.db.revisions
            && after.db.revisions[before.db.jobs[job].revisionId].status == GENERATING
  {
    RunOk(cfg, actions);
    TwoRun(cfg, actions, ClaimJob(worker, job), Crash(worker));
    ClaimTakes(cfg, Run(cfg, actions), worker, job);
    CrashLeaves(cfg, Run(cfg, actions), Apply(cfg, Run(cfg, actions), ClaimJob(worker, job)), worker, job, now);
    hide *;
  }

  lemma CrashLeaves(cfg: Config, before: World, claimed: World, worker: WorkerId, job: Id, now: int)
    requires Taken(cfg, before, claimed, worker, job) && before.db.jobs[job].row.attempts == cfg.maxAttempts
    requires Working(claimed, worker, job, before.db.jobs[job].revisionId)
    ensures var after := Apply(cfg, claimed, Crash(worker));
            && Taken(cfg, before, after, worker, job) && !CanClaim(after.db, job, now, cfg)
            && before.db.jobs[job].revisionId in after.db.revisions
            && after.db.revisions[before.db.jobs[job].revisionId].status == GENERATING
  {
  }

  /** With one attempt: the first worker crashes, the second one too after it took the job over. */
  function StrandingRun(leaseMs: nat): seq<Action> {
    [AddWorkspace("w", true), Submit("w", "key", "answers", "profile", "revision", "job"), ClaimJob("first", "job"), Load("first", None),
     Tick(leaseMs), ClaimJob("second", "job"), Crash("second")]
  }

  lemma SubmittedRun(cfg: Config)
    ensures var w := Run(cfg, [AddWorkspace("w", true), Submit("w", "key", "answers", "profile", "revision", "job")]);
            && "job" in w.db.jobs && w.db.jobs["job"].row == Row(PENDING, 0, 0, None, None, None) && w.now == 0 && w.pcs == map[]
  {
    var a, b := AddWorkspace("w", true), Submit("w", "key", "answers", "profile", "revision", "job");
    TwoRun(cfg, [], a, b);
    assert [] + [a, b] == [a, b];
    var db := INITIAL.db.(workspaces := map["w" := true]);
    assert Apply(cfg, Run(cfg, []), a).db == db;
    assert !Submitted(db, "profile", "key");
    hide NextNumber, Submitted;
  }

  lemma StrandedJob(leaseMs: nat, now: int)
    ensures var w := Run(Config(leaseMs, 1), StrandingRun(leaseMs));
            && "job" in w.db.jobs && w.db.jobs["job"].row.status == RUNNING && !CanClaim(w.db, "job", now, Config(leaseMs, 1))
  {
    var cfg := Config(leaseMs, 1);
    var submitted := [AddWorkspace("w", true), Submit("w", "key", "answers", "profile", "revision", "job")];
    var taken := submitted + [ClaimJob("first", "job"), Load("first", None)];
    SubmittedRun(cfg);
    ClaimBegins(cfg, submitted, "first", "job");
    RunNext(cfg, taken, Tick(leaseMs));
    SecondIsIdle(cfg, submitted);
    assert StrandingRun(leaseMs) == taken + [Tick(leaseMs)] + [ClaimJob("second", "job"), Crash("second")];
    hide Run, StrandingRun;
    assert Run(cfg, taken + [Tick(leaseMs)]) == Run(cfg, taken).(now := Run(cfg, taken).now + leaseMs);
    CrashAfterExhaustion(cfg, taken + [Tick(leaseMs)], "second", "job", now);
  }

  lemma SecondIsIdle(cfg: Config, actions: seq<Action>)
    requires PcOf(Run(cfg, actions), "second") == Idle
    ensures PcOf(Run(cfg, actions + [ClaimJob("first", "job"), Load("first", None)]), "second") == Idle
  {
    TwoRun(cfg, actions, ClaimJob("first", "job"), Load("first", None));
    hide OnError, Claim;
  }

  // ---- where results come from ----

  /** No revision has a result that it did not have before, except r with d. */
  ghost predicate DataFrom(db: Db, next: Db, r: Id, d: Document) {
    forall id :: id in next.revisions && next.revisions[id].profileData.Some? ==>
      || (id in db.revisions && db.revisions[id].profileData == next.revisions[id].profileData)
      || (id == r && next.revisions[id].profileData == Some(d))
  }

  ghost predicate NoNewData(db: Db, next: Db) {
    forall id :: id in next.revisions && next.revisions[id].profileData.Some? ==>
      id in db.revisions && db.revisions[id].profileData == next.revisions[id].profileData
  }

  // Only storing a result, by the worker or elsewhere, and an edit write one.

  lemma CreateWritesNone(db: Db, workspace: Id, key: string, answers: Document, newProfile: Id, newRevision: Id, newJob: Id, now: int)
    ensures NoNewData(db, CreateRevision(db, workspace, key, answers, newProfile, newRevision, newJob, now).0)
  {
    hide NextNumber, Submitted;
  }

  lemma EditWrites(db: Db, base: Id, newRevision: Id, data: Document)
    ensures DataFrom(db, CreateEditedRevision(db, base, newRevision, data).0, newRevision, data)
  {
    hide NextNumber;
  }

  lemma ApproveWritesNone(db: Db, revision: Id)
    ensures NoNewData(db, ApproveRevision(db, revision).0)
  {
  }

  lemma FailWritesNone(db: Db, revision: Id, code: string)
    ensures NoNewData(db, FailGeneration(db, revision, code).0)
  {
    hide CloseJobsOf;
  }

  lemma CompleteWrites(db: Db, revision: Id, data: Document)
    ensures DataFrom(db, CompleteGeneration(db, revision, data).0, revision, data)
  {
    hide CloseJobsOf, HasJob;
  }

  /** The action that first produces d for r: a completion or an edit from elsewhere, or the answer of a generator
      call for r that fits the schema. */
  ghost predicate Produces(cfg: Config, w: World, a: Action, r: Id, d: Document) {
    || a == CompleteElsewhere(r, d)
    || (a.Edit? && a.newRevision == r && a.data == d)
    || (a.Generated? && a.schemaValid && a.data == d && PcOf(w, a.worker).Generating? && PcOf(w, a.worker).revision == r)
  }

  /** What one action can bring about: a result from elsewhere, or that of the worker whose call it is. */
  ghost predicate StepSources(cfg: Config, w: World, a: Action, next: World) {
    && (forall r :: r in next.db.revisions && next.db.revisions[r].profileData.Some? ==>
          || (r in w.db.revisions && w.db.revisions[r].profileData == next.db.revisions[r].profileData)
          || Produces(cfg, w, a, r, next.db.revisions[r].profileData.value)
          || (a.CompleteCall? && PcOf(w, a.worker).Completing? && PcOf(w, a.worker).revision == r
              && Some(PcOf(w, a.worker).data) == next.db.revisions[r].profileData))
    && (forall u :: PcOf(next, u).Completing? ==>
          PcOf(next, u) == PcOf(w, u) || Produces(cfg, w, a, PcOf(next, u).revision, PcOf(next, u).data))
  }

  lemma StoreSources(cfg: Config, w: World, a: Action)
    requires a.Submit? || a.Edit? || a.Approve? || a.CompleteElsewhere? || a.FailElsewhere?
    ensures StepSources(cfg, w, a, Apply(cfg, w, a))
  {
    hide CreateRevision, CreateEditedRevision, ApproveRevision, CompleteGeneration, FailGeneration, FreshSubmission;
    match a
    case Submit(workspace, key, answers, newProfile, newRevision, newJob) =>
      CreateWritesNone(w.db, workspace, key, answers, newProfile, newRevision, newJob, w.now);
    case Edit(base, newRevision, data) => EditWrites(w.db, base, newRevision, data);
    case Approve(revision) => ApproveWritesNone(w.db, revision);
    case CompleteElsewhere(revision, data) => CompleteWrites(w.db, revision, data);
    case FailElsewhere(revision, code) => FailWritesNone(w.db, revision, code);
  }

  lemma CompleteCallSources(cfg: Config, w: World, worker: WorkerId, reply: Reply)
    ensures StepSources(cfg, w, CompleteCall(worker, reply), Apply(cfg, w, CompleteCall(worker, reply)))
  {
    var pc := PcOf(w, worker);
    if pc.Completing? { CompleteWrites(w.db, pc.revision, pc.data); }
    hide CompleteGeneration, Classify;
  }

  lemma MarkFailedSources(cfg: Config, w: World, worker: WorkerId, reply: Reply)
    ensures StepSources(cfg, w, MarkFailedCall(worker, reply), Apply(cfg, w, MarkFailedCall(worker, reply)))
  {
    var pc := PcOf(w, worker);
    if pc.Failing? { FailWritesNone(w.db, pc.revision, pc.code); }
    hide FailGeneration;
  }

  /** Everything else leaves the revisions alone. */
  lemma QueueSources(cfg: Config, w: World, a: Action)
    requires a.ClaimJob? || a.Heartbeat? || a.Load? || a.Generated? || a.GeneratorFailed? || a.RetryCall? || a.AckSuccessCall?
             || a.AckFailureCall? || a.Crash? || a.Tick? || a.AddWorkspace?
    ensures StepSources(cfg, w, a, Apply(cfg, w, a))
  {
    hide Classify, BackoffMs, Claimed, Extended, Requeued, Closed, Claimable, Owned, Live;
    var next := Apply(cfg, w, a);
    assert next.db.revisions == w.db.revisions;
  }

  lemma ActionSources(cfg: Config, w: World, a: Action)
    ensures StepSources(cfg, w, a, Apply(cfg, w, a))
  {
    hide StepSources, Apply;
    match a
    case CompleteCall(worker, reply) => CompleteCallSources(cfg, w, worker, reply);
    case MarkFailedCall(worker, reply) => MarkFailedSources(cfg, w, worker, reply);
    case Submit(_, _, _, _, _, _) => StoreSources(cfg, w, a);
    case Edit(_, _, _) => StoreSources(cfg, w, a);
    case Approve(_) => StoreSources(cfg, w, a);
    case CompleteElsewhere(_, _) => StoreSources(cfg, w, a);
    case FailElsewhere(_, _) => StoreSources(cfg, w, a);
    case _ => QueueSources(cfg, w, a);
  }

  ghost predicate Sourced(cfg: Config, actions: seq<Action>, r: Id, d: Document) {
    exists i :: 0 <= i < |actions| && Produces(cfg, Run(cfg, actions[..i]), actions[i], r, d)
  }

  ghost predicate AllSourced(cfg: Config, actions: seq<Action>) {
    var w := Run(cfg, actions);
    && (forall r :: r in w.db.revisions && w.db.revisions[r].profileData.Some? ==> Sourced(cfg, actions, r, w.db.revisions[r].profileData.value))
    && (forall u :: PcOf(w, u).Completing? ==> Sourced(cfg, actions, PcOf(w, u).revision, PcOf(w, u).data))
  }

  lemma SourcedLonger(cfg: Config, actions: seq<Action>, a: Action, r: Id, d: Document)
    ensures Sourced(cfg, actions, r, d) ==> Sourced(cfg, actions + [a], r, d)
    ensures Produces(cfg, Run(cfg, actions), a, r, d) ==> Sourced(cfg, actions + [a], r, d)
  {
    hide Run, Produces;
    var longer := actions + [a];
    if Sourced(cfg, actions, r, d) {
      var i :| 0 <= i < |actions| && Produces(cfg, Run(cfg, actions[..i]), actions[i], r, d);
      assert longer[..i] == actions[..i] && longer[i] == actions[i];
    }
    if Produces(cfg, Run(cfg, actions), a, r, d) {
      assert longer[..|actions|] == actions && longer[|actions|] == a;
    }
  }

  lemma SourcedNext(cfg: Config, actions: seq<Action>, a: Action)
    requires AllSourced(cfg, actions)
    ensures AllSourced(cfg, actions + [a])
  {
    var w := Run(cfg, actions);
    var next := Apply(cfg, w, a);
    RunNext(cfg, actions, a);
    ActionSources(cfg, w, a);
    hide Run, Apply, Produces, Sourced;
    forall r, d ensures (Sourced(cfg, actions, r, d) || Produces(cfg, w, a, r, d)) ==> Sourced(cfg, actions + [a], r, d) {
      SourcedLonger(cfg, actions, a, r, d);
    }
  }

  lemma {:induction false} RunSourced(cfg: Config, actions: seq<Action>)
    ensures AllSourced(cfg, actions)
  {
    if actions != [] {
      var n := |actions| - 1;
      RunSourced(cfg, actions[..n]);
      hide *;
      SourcedNext(cfg, actions[..n], actions[n]);
      assert actions == actions[..n] + [actions[n]];
    }
  }

  /** Every result in the database was an answer that fits the schema to a call for that revision, or was completed
      or edited elsewhere: an answer against the schema never becomes one. */
  lemma ResultsAreSourced(cfg: Config, actions: seq<Action>, r: Id)
    requires r in Run(cfg, actions).db.revisions && Run(cfg, actions).db.revisions[r].profileData.Some?
    ensures exists i :: 0 <= i < |actions|
              && Produces(cfg, Run(cfg, actions[..i]), actions[i], r, Run(cfg, actions).db.revisions[r].profileData.value)
  {
    RunSourced(cfg, actions);
  }
}
