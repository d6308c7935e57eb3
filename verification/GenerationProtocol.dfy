/**
 Many generation workers over one database (src/jobs/generation-worker.ts,
 src/brand/service.ts). A run is a list of actions; every awaited call of
 `processOne` is one action, so any interleaving, crash, lost response or
 arbitrarily late worker is some list. Theorems range over all lists.
 */
module GenerationProtocol {
  import opened Lease
  import opened GenerationDatabase
  import opened RetryPolicy

  /** Where a worker stands inside `processOne`. */
  datatype Pc =
    | Idle
    | Loading(job: Id, revision: Id, attempt: nat)
    | Generating(job: Id, revision: Id, attempt: nat)
    | Completing(job: Id, revision: Id, attempt: nat, data: Document)
    | Retrying(job: Id, revision: Id, attempt: nat, code: string)
    | Failing(job: Id, revision: Id, code: string)
    | AckingSuccess(job: Id, revision: Id)
    | AckingFailure(job: Id, revision: Id, code: string)

  /** `calls` is history: which attempt of which job called the generator, in order. */
  datatype World = World(now: int, db: Db, pcs: map<WorkerId, Pc>, calls: seq<(Id, nat)>)

  /** How a database call ends for its caller. */
  datatype Reply = Arrived | FailedBefore(failure: Failure) | LostAfter(failure: Failure)

  datatype Action =
    | Tick(ms: nat)
    | AddWorkspace(workspace: Id, active: bool)
    | Submit(workspace: Id, key: string, answers: Document, newProfile: Id, newRevision: Id, newJob: Id)
    | Edit(base: Id, newRevision: Id, data: Document)
    | Approve(revision: Id)
    | CompleteElsewhere(revision: Id, data: Document)
    | FailElsewhere(revision: Id, code: string)
    | ClaimJob(worker: WorkerId, job: Id)
    | Heartbeat(worker: WorkerId, job: Id)
    | Load(worker: WorkerId, readError: Option<Failure>)
    | Generated(worker: WorkerId, data: Document, schemaValid: bool)
    | GeneratorFailed(worker: WorkerId, failure: Failure)
    | CompleteCall(worker: WorkerId, reply: Reply)
    | RetryCall(worker: WorkerId, random: real, reply: Reply)
    | MarkFailedCall(worker: WorkerId, reply: Reply)
    | AckSuccessCall(worker: WorkerId, reply: Reply)
    | AckFailureCall(worker: WorkerId, reply: Reply)
    | Crash(worker: WorkerId)

  function PcOf(w: World, worker: WorkerId): Pc {
    if worker in w.pcs then w.pcs[worker] else Idle
  }

  function Goto(w: World, worker: WorkerId, pc: Pc): World {
    w.(pcs := w.pcs[worker := pc])
  }

  const SCHEMA_ERROR := Failure(true, None, None, Some("Error"))

  /** The inner catch of `processOne`. */
  function OnError(cfg: Config, job: Id, revision: Id, attempt: nat, failure: Failure): Pc {
    var disposition := Classify(failure);
    if disposition.retryable && attempt < cfg.maxAttempts then Retrying(job, revision, attempt, disposition.code)
    else Failing(job, revision, disposition.code)
  }

  function ApplyClaim(cfg: Config, w: World, worker: WorkerId, job: Id): World {
    if PcOf(w, worker) != Idle || !CanClaim(w.db, job, w.now, cfg) then w
    else
      var db := Claim(w.db, job, worker, w.now, cfg);
      var attempt := db.jobs[job].row.attempts;
      var revision := db.jobs[job].revisionId;
      Goto(w.(db := db), worker,
           if attempt > cfg.maxAttempts then Failing(job, revision, "LEASE_EXHAUSTED")
           else Loading(job, revision, attempt))
  }

  /** `generatePayload` up to the call of the generator. */
  function ApplyLoad(cfg: Config, w: World, worker: WorkerId, failure: Option<Failure>): World {
    match PcOf(w, worker)
    case Loading(job, revision, attempt) =>
      if failure.Some? then Goto(w, worker, OnError(cfg, job, revision, attempt, failure.value))
      else if revision !in w.db.revisions || w.db.revisions[revision].status != GENERATING then
        Goto(w, worker, OnError(cfg, job, revision, attempt, DOMAIN_ERROR))
      else
        Goto(w.(calls := w.calls + [(job, attempt)]), worker, Generating(job, revision, attempt))
    case _ => w
  }

  function ApplyGenerated(cfg: Config, w: World, worker: WorkerId, data: Document, schemaValid: bool): World {
    match PcOf(w, worker)
    case Generating(job, revision, attempt) =>
      Goto(w, worker, if schemaValid then Completing(job, revision, attempt, data)
                      else OnError(cfg, job, revision, attempt, SCHEMA_ERROR))
    case _ => w
  }

  function ApplyGeneratorFailed(cfg: Config, w: World, worker: WorkerId, failure: Failure): World {
    match PcOf(w, worker)
    case Generating(job, revision, attempt) => Goto(w, worker, OnError(cfg, job, revision, attempt, failure))
    case _ => w
  }

  function ApplyComplete(cfg: Config, w: World, worker: WorkerId, reply: Reply): World {
    match PcOf(w, worker)
    case Completing(job, revision, attempt, data) =>
      var (db, outcome) := CompleteGeneration(w.db, revision, data);
      (match reply
       case FailedBefore(f) => Goto(w, worker, OnError(cfg, job, revision, attempt, f))
       case LostAfter(f) => Goto(w.(db := db), worker, OnError(cfg, job, revision, attempt, f))
       case Arrived =>
         Goto(w.(db := db), worker,
              if outcome == Committed then AckingSuccess(job, revision)
              else OnError(cfg, job, revision, attempt, DOMAIN_ERROR)))
    case _ => w
  }

  function ApplyRetry(w: World, worker: WorkerId, random: real, reply: Reply): World {
    match PcOf(w, worker)
    case Retrying(job, revision, attempt, code) =>
      var (db, ok) := Retry(w.db, job, worker, w.now + BackoffMs(attempt, random), code);
      Goto(if reply.FailedBefore? then w else w.(db := db), worker, Idle)
    case _ => w
  }

  function ApplyMarkFailed(w: World, worker: WorkerId, reply: Reply): World {
    match PcOf(w, worker)
    case Failing(job, revision, code) =>
      var (db, outcome) := FailGeneration(w.db, revision, code);
      (match reply
       case FailedBefore(f) => Goto(w, worker, Idle)
       case LostAfter(f) => Goto(w.(db := db), worker, Idle)
       case Arrived =>
         Goto(w.(db := db), worker, if outcome == Committed then AckingFailure(job, revision, code) else Idle))
    case _ => w
  }

  function ApplyAckSuccess(w: World, worker: WorkerId, reply: Reply): World {
    match PcOf(w, worker)
    case AckingSuccess(job, revision) =>
      var (db, ok) := AcknowledgeSuccess(w.db, job, worker);
      Goto(if reply.FailedBefore? then w else w.(db := db), worker, Idle)
    case _ => w
  }

  function ApplyAckFailure(w: World, worker: WorkerId, reply: Reply): World {
    match PcOf(w, worker)
    case AckingFailure(job, revision, code) =>
      var (db, ok) := AcknowledgeFailure(w.db, job, worker, code);
      Goto(if reply.FailedBefore? then w else w.(db := db), worker, Idle)
    case _ => w
  }

  predicate FreshSubmission(db: Db, newRevision: Id, newJob: Id) {
    newRevision !in db.revisions && newJob !in db.jobs
  }

  /** A step of the system; an action that is not possible changes nothing. */
  ghost function Apply(cfg: Config, w: World, a: Action): World {
    match a
    case Tick(ms) => w.(now := w.now + ms)
    case AddWorkspace(id, active) => w.(db := w.db.(workspaces := w.db.workspaces[id := active]))
    case Submit(workspace, key, answers, newProfile, newRevision, newJob) =>
      if FreshSubmission(w.db, newRevision, newJob)
      then w.(db := CreateRevision(w.db, workspace, key, answers, newProfile, newRevision, newJob, w.now).0) else w
    case Edit(base, newRevision, data) =>
      if newRevision !in w.db.revisions then w.(db := CreateEditedRevision(w.db, base, newRevision, data).0) else w
    case Approve(revision) => w.(db := ApproveRevision(w.db, revision).0)
    case CompleteElsewhere(revision, data) => w.(db := CompleteGeneration(w.db, revision, data).0)
    case FailElsewhere(revision, code) => w.(db := FailGeneration(w.db, revision, code).0)
    case ClaimJob(worker, job) => ApplyClaim(cfg, w, worker, job)
    case Heartbeat(worker, job) => w.(db := ExtendLease(w.db, job, worker, w.now, cfg).0)
    case Load(worker, failure) => ApplyLoad(cfg, w, worker, failure)
    case Generated(worker, data, schemaValid) => ApplyGenerated(cfg, w, worker, data, schemaValid)
    case GeneratorFailed(worker, failure) => ApplyGeneratorFailed(cfg, w, worker, failure)
    case CompleteCall(worker, reply) => ApplyComplete(cfg, w, worker, reply)
    case RetryCall(worker, random, reply) => ApplyRetry(w, worker, random, reply)
    case MarkFailedCall(worker, reply) => ApplyMarkFailed(w, worker, reply)
    case AckSuccessCall(worker, reply) => ApplyAckSuccess(w, worker, reply)
    case AckFailureCall(worker, reply) => ApplyAckFailure(w, worker, reply)
    case Crash(worker) => Goto(w, worker, Idle)
  }

  const INITIAL := World(0, Db(map[], map[], map[], map[], []), map[], [])

  ghost function Run(cfg: Config, actions: seq<Action>): World {
    if actions == [] then INITIAL
    else Apply(cfg, Run(cfg, actions[..|actions| - 1]), actions[|actions| - 1])
  }

  // ---- the database invariant ----

  function CountReviews(outbox: seq<Event>, revision: Id): nat {
    if outbox == [] then 0
    else CountReviews(outbox[..|outbox| - 1], revision)
         + if outbox[|outbox| - 1] == Event(ReviewRequired, revision) then 1 else 0
  }

  /** The job status that goes with a revision status. */
  ghost predicate Mirrors(job: Status, revision: RevisionStatus) {
    && (job in {PENDING, RUNNING} <==> revision == GENERATING)
    && (job == FAILED <==> revision == GENERATION_FAILED)
    && (job == SUCCEEDED <==> Completed(revision))
  }

  ghost predicate JobsMirror(db: Db) {
    forall j :: j in db.jobs ==>
      && db.jobs[j].revisionId in db.revisions
      && Mirrors(db.jobs[j].row.status, db.revisions[db.jobs[j].revisionId].status)
  }

  ghost predicate RowsConsistent(cfg: Config, db: Db) {
    forall j :: j in db.jobs ==> Lease.Consistent(db.jobs[j].row, cfg.maxAttempts)
  }

  ghost predicate OneJobEach(db: Db) {
    && (forall i, j :: i in db.jobs && j in db.jobs && db.jobs[i].revisionId == db.jobs[j].revisionId ==> i == j)
    && (forall r :: r in db.revisions && !Completed(db.revisions[r].status) ==> HasJob(db.jobs, r))
  }

  ghost predicate OneReviewEach(db: Db) {
    forall r :: CountReviews(db.outbox, r) == if r in db.revisions && Completed(db.revisions[r].status) then 1 else 0
  }

  ghost predicate DbOk(cfg: Config, db: Db) {
    JobsMirror(db) && RowsConsistent(cfg, db) && OneJobEach(db) && OneReviewEach(db)
  }

  // ---- what a transaction may do to the rows other workers rely on ----

  /** GENERATING, then GENERATION_FAILED, or REVIEW_REQUIRED, APPROVED, SUPERSEDED in this order. */
  function Stage(status: RevisionStatus): nat {
    match status
    case GENERATING => 0
    case GENERATION_FAILED => 1
    case REVIEW_REQUIRED => 1
    case APPROVED => 2
    case SUPERSEDED => 3
  }

  ghost predicate StatusKeeps(before: RevisionStatus, after: RevisionStatus) {
    && Stage(before) <= Stage(after)
    && (Completed(before) ==> Completed(after))
    && (before == GENERATION_FAILED ==> after == GENERATION_FAILED)
  }

  /** What a revision was created with never changes, its status only moves forward, and a result once there stays. */
  ghost predicate RevisionKeeps(before: Revision, after: Revision) {
    && after.profileId == before.profileId && after.number == before.number && after.answers == before.answers
    && after.onboardingKey == before.onboardingKey
    && StatusKeeps(before.status, after.status)
    && (Completed(before.status) ==> after.profileData == before.profileData)
  }

  ghost predicate RowKeeps(before: Row, after: Row, claimant: Option<WorkerId>) {
    && before.attempts <= after.attempts
    && (|| after.status != RUNNING
        || (before.status == RUNNING && after.lockedBy == before.lockedBy && after.attempts == before.attempts)
        || (claimant.Some? && after.lockedBy == claimant))
  }

  ghost predicate RevisionsKeep(db: Db, next: Db) {
    forall r :: r in db.revisions ==> r in next.revisions && RevisionKeeps(db.revisions[r], next.revisions[r])
  }

  ghost predicate Keeps(db: Db, next: Db, claimant: Option<WorkerId>) {
    && RevisionsKeep(db, next)
    && (forall j :: j in db.jobs ==>
        && j in next.jobs && next.jobs[j].revisionId == db.jobs[j].revisionId
        && RowKeeps(db.jobs[j].row, next.jobs[j].row, claimant))
  }

  lemma CountAppend(outbox: seq<Event>, e: Event, r: Id)
    ensures CountReviews(outbox + [e], r) == CountReviews(outbox, r) + if e == Event(ReviewRequired, r) then 1 else 0
  {
    assert (outbox + [e])[..|outbox|] == outbox;
  }

  // Each piece of the invariant is carried over on its own.

  lemma OneJobCarries(db: Db, next: Db)
    requires OneJobEach(db) && next.jobs.Keys == db.jobs.Keys
    requires forall j :: j in db.jobs ==> next.jobs[j].revisionId == db.jobs[j].revisionId
    requires forall r :: r in next.revisions && !Completed(next.revisions[r].status) ==>
      r in db.revisions && !Completed(db.revisions[r].status)
    ensures OneJobEach(next)
  {
    forall r | r in next.revisions && !Completed(next.revisions[r].status) ensures HasJob(next.jobs, r) {
      var j :| j in db.jobs && db.jobs[j].revisionId == r;
      assert next.jobs[j].revisionId == r;
    }
  }

  lemma OneReviewCarries(db: Db, next: Db, e: Event)
    requires OneReviewEach(db) && next.outbox == db.outbox + [e]
    requires forall r :: r != e.revisionId || e.topic != ReviewRequired ==>
      (r in next.revisions && Completed(next.revisions[r].status)) == (r in db.revisions && Completed(db.revisions[r].status))
    requires e.topic == ReviewRequired ==>
      && e.revisionId in next.revisions && Completed(next.revisions[e.revisionId].status)
      && !(e.revisionId in db.revisions && Completed(db.revisions[e.revisionId].status))
    ensures OneReviewEach(next)
  {
    forall r ensures CountReviews(next.outbox, r) == CountReviews(db.outbox, r) + if e == Event(ReviewRequired, r) then 1 else 0 {
      CountAppend(db.outbox, e, r);
    }
  }

  lemma CreateOk(cfg: Config, db: Db, workspace: Id, key: string, answers: Document, newProfile: Id, newRevision: Id, newJob: Id, now: int)
    requires DbOk(cfg, db) && FreshSubmission(db, newRevision, newJob) && cfg.maxAttempts > 0
    ensures DbOk(cfg, CreateRevision(db, workspace, key, answers, newProfile, newRevision, newJob, now).0)
  {
    var next := CreateRevision(db, workspace, key, answers, newProfile, newRevision, newJob, now).0;
    CreateInserts(db, workspace, key, answers, newProfile, newRevision, newJob, now);
    hide CreateRevision;
    if next.revisions == db.revisions {
      SameTablesOk(cfg, db, next);
    } else {
      InsertedOk(cfg, db, next, newRevision, newJob, now);
    }
  }

  /** Either only the profile row was written, or revision, job and event were inserted together. */
  lemma CreateInserts(db: Db, workspace: Id, key: string, answers: Document, newProfile: Id, newRevision: Id, newJob: Id, now: int)
    requires FreshSubmission(db, newRevision, newJob)
    ensures var next := CreateRevision(db, workspace, key, answers, newProfile, newRevision, newJob, now).0;
            || (next.revisions == db.revisions && next.jobs == db.jobs && next.outbox == db.outbox)
            || (&& newRevision in next.revisions && next.revisions == db.revisions[newRevision := next.revisions[newRevision]]
                && next.revisions[newRevision].status == GENERATING
                && next.jobs == db.jobs[newJob := Job(newRevision, Enqueued(now))]
                && next.outbox == db.outbox + [Event(GenerationRequested, newRevision)])
  {
    hide NextNumber, Submitted;
  }

  lemma SameTablesOk(cfg: Config, db: Db, next: Db)
    requires DbOk(cfg, db) && next.revisions == db.revisions && next.jobs == db.jobs && next.outbox == db.outbox
    ensures DbOk(cfg, next)
  {
    hide CountReviews, HasJob;
  }

  lemma InsertedOk(cfg: Config, db: Db, next: Db, newRevision: Id, newJob: Id, now: int)
    requires DbOk(cfg, db) && FreshSubmission(db, newRevision, newJob) && cfg.maxAttempts > 0
    requires newRevision in next.revisions && next.revisions == db.revisions[newRevision := next.revisions[newRevision]]
    requires next.revisions[newRevision].status == GENERATING && next.jobs == db.jobs[newJob := Job(newRevision, Enqueued(now))]
    requires next.outbox == db.outbox + [Event(GenerationRequested, newRevision)]
    ensures DbOk(cfg, next)
  {
    OneReviewCarries(db, next, Event(GenerationRequested, newRevision));
    InsertedJob(db, next, newRevision, newJob, next.revisions[newRevision], next.jobs[newJob]);
    hide JobsMirror, OneJobEach, OneReviewEach;
  }

  lemma CreateKeeps(db: Db, workspace: Id, key: string, answers: Document, newProfile: Id, newRevision: Id, newJob: Id, now: int)
    requires FreshSubmission(db, newRevision, newJob)
    ensures Keeps(db, CreateRevision(db, workspace, key, answers, newProfile, newRevision, newJob, now).0, None)
  {
  }

  lemma InsertedJob(db: Db, next: Db, newRevision: Id, newJob: Id, revision: Revision, job: Job)
    requires OneJobEach(db) && JobsMirror(db) && FreshSubmission(db, newRevision, newJob)
    requires next.revisions == db.revisions[newRevision := revision] && next.jobs == db.jobs[newJob := job]
    requires job.revisionId == newRevision && Mirrors(job.row.status, revision.status)
    ensures OneJobEach(next) && JobsMirror(next)
  {
    assert next.jobs[newJob] == job;
    forall r | r in next.revisions && !Completed(next.revisions[r].status) ensures HasJob(next.jobs, r) {
      if r == newRevision {
        assert next.jobs[newJob].revisionId == r;
      } else {
        var j :| j in db.jobs && db.jobs[j].revisionId == r;
        assert next.jobs[j].revisionId == r;
      }
    }
  }

  lemma EditOk(cfg: Config, db: Db, base: Id, newRevision: Id, data: Document)
    requires DbOk(cfg, db) && newRevision !in db.revisions
    ensures DbOk(cfg, CreateEditedRevision(db, base, newRevision, data).0)
    ensures Keeps(db, CreateEditedRevision(db, base, newRevision, data).0, None)
  {
    var next := CreateEditedRevision(db, base, newRevision, data).0;
    EditInserts(db, base, newRevision, data);
    hide CreateEditedRevision;
    if next != db { CopyOk(cfg, db, next, newRevision); }
  }

  lemma EditInserts(db: Db, base: Id, newRevision: Id, data: Document)
    ensures var next := CreateEditedRevision(db, base, newRevision, data).0;
            || next == db
            || (&& newRevision in next.revisions && next.revisions == db.revisions[newRevision := next.revisions[newRevision]]
                && next.revisions[newRevision].status == REVIEW_REQUIRED && next.jobs == db.jobs
                && next.outbox == db.outbox + [Event(ReviewRequired, newRevision)])
  {
    hide NextNumber;
  }

  lemma CopyOk(cfg: Config, db: Db, next: Db, newRevision: Id)
    requires DbOk(cfg, db) && newRevision !in db.revisions && newRevision in next.revisions
    requires next.revisions == db.revisions[newRevision := next.revisions[newRevision]]
    requires next.revisions[newRevision].status == REVIEW_REQUIRED && next.jobs == db.jobs
    requires next.outbox == db.outbox + [Event(ReviewRequired, newRevision)]
    ensures DbOk(cfg, next) && Keeps(db, next, None)
  {
    OneReviewCarries(db, next, Event(ReviewRequired, newRevision));
    OneJobCarries(db, next);
    CopyMirror(db, next, newRevision);
    hide OneJobEach, OneReviewEach, JobsMirror, Lease.Consistent;
  }

  lemma CopyMirror(db: Db, next: Db, newRevision: Id)
    requires JobsMirror(db) && newRevision !in db.revisions && newRevision in next.revisions
    requires next.revisions == db.revisions[newRevision := next.revisions[newRevision]] && next.jobs == db.jobs
    ensures JobsMirror(next)
  {
    hide Mirrors;
  }

  /** `next` shows the same jobs, and the same revisions as far as generation is concerned. */
  ghost predicate SameGeneration(db: Db, next: Db) {
    && next.jobs == db.jobs && next.revisions.Keys == db.revisions.Keys
    && forall r :: r in db.revisions ==>
        && Completed(next.revisions[r].status) == Completed(db.revisions[r].status)
        && (!Completed(db.revisions[r].status) ==> next.revisions[r].status == db.revisions[r].status)
  }

  lemma SameGenerationOk(cfg: Config, db: Db, next: Db, revision: Id)
    requires DbOk(cfg, db) && SameGeneration(db, next) && next.outbox == db.outbox + [Event(ProfileApproved, revision)]
    ensures DbOk(cfg, next)
  {
    OneReviewCarries(db, next, Event(ProfileApproved, revision));
    OneJobCarries(db, next);
  }

  lemma ApproveKeeps(db: Db, revision: Id)
    ensures Keeps(db, ApproveRevision(db, revision).0, None)
  {
    var next := ApproveRevision(db, revision).0;
    assert next.jobs == db.jobs;
    forall r | r in db.revisions ensures r in next.revisions && RevisionKeeps(db.revisions[r], next.revisions[r]) {
      ApproveKeepsOne(db, revision, r);
    }
    hide RevisionKeeps, ApproveRevision;
  }

  lemma ApproveKeepsOne(db: Db, revision: Id, r: Id)
    requires r in db.revisions
    ensures r in ApproveRevision(db, revision).0.revisions
    ensures RevisionKeeps(db.revisions[r], ApproveRevision(db, revision).0.revisions[r])
  {
  }

  lemma ApproveIsSameGeneration(db: Db, revision: Id)
    ensures SameGeneration(db, ApproveRevision(db, revision).0)
  {
  }

  lemma ApproveOk(cfg: Config, db: Db, revision: Id)
    requires DbOk(cfg, db)
    ensures DbOk(cfg, ApproveRevision(db, revision).0)
  {
    ApproveIsSameGeneration(db, revision);
    hide DbOk, SameGeneration;
    if ApproveRevision(db, revision).1 == Committed { SameGenerationOk(cfg, db, ApproveRevision(db, revision).0, revision); }
  }

  lemma ClosedMirror(db: Db, next: Db, revision: Id, status: Status, lastError: Option<string>)
    requires JobsMirror(db) && revision in db.revisions && revision in next.revisions
    requires next.jobs == CloseJobsOf(db.jobs, revision, status, lastError)
    requires next.revisions == db.revisions[revision := next.revisions[revision]]
    requires Mirrors(status, next.revisions[revision].status)
    ensures JobsMirror(next)
  {
    forall j | j in next.jobs
      ensures next.jobs[j].revisionId in next.revisions
      ensures Mirrors(next.jobs[j].row.status, next.revisions[next.jobs[j].revisionId].status)
    {
      assert db.jobs[j].revisionId in db.revisions;
    }
  }

  lemma ClosedRows(cfg: Config, db: Db, revision: Id, status: Status, lastError: Option<string>)
    requires RowsConsistent(cfg, db) && status in {SUCCEEDED, FAILED}
    ensures var next := db.(jobs := CloseJobsOf(db.jobs, revision, status, lastError));
            RowsConsistent(cfg, next) && Keeps(db, next, None)
  {
    var jobs := CloseJobsOf(db.jobs, revision, status, lastError);
    forall j | j in db.jobs
      ensures j in jobs && jobs[j].revisionId == db.jobs[j].revisionId
      ensures Lease.Consistent(jobs[j].row, cfg.maxAttempts) && RowKeeps(db.jobs[j].row, jobs[j].row, None)
    {
    }
  }

  lemma CompleteOk(cfg: Config, db: Db, revision: Id, data: Document)
    requires DbOk(cfg, db)
    ensures DbOk(cfg, CompleteGeneration(db, revision, data).0)
  {
    var (next, outcome) := CompleteGeneration(db, revision, data);
    if outcome == Committed {
      OneReviewCarries(db, next, Event(ReviewRequired, revision));
      OneJobCarries(db, next);
      ClosedMirror(db, next, revision, SUCCEEDED, None);
      ClosedRows(cfg, db, revision, SUCCEEDED, None);
    }
  }

  lemma CompleteKeeps(cfg: Config, db: Db, revision: Id, data: Document)
    requires RowsConsistent(cfg, db)
    ensures Keeps(db, CompleteGeneration(db, revision, data).0, None)
  {
    hide RowsConsistent, CloseJobsOf;
    ClosedRows(cfg, db, revision, SUCCEEDED, None);
  }

  lemma FailOk(cfg: Config, db: Db, revision: Id, code: string)
    requires DbOk(cfg, db)
    ensures DbOk(cfg, FailGeneration(db, revision, code).0)
  {
    hide JobsMirror, RowsConsistent, OneJobEach, OneReviewEach;
    if FailGeneration(db, revision, code).1 == Committed {
      FailReviews(db, revision, code);
      FailJobs(db, revision, code);
      FailMirror(db, revision, code);
      FailRows(cfg, db, revision, code);
    }
    hide FailGeneration;
  }

  lemma FailReviews(db: Db, revision: Id, code: string)
    requires OneReviewEach(db)
    ensures OneReviewEach(FailGeneration(db, revision, code).0)
  {
    hide CountReviews, CloseJobsOf;
  }

  lemma FailJobs(db: Db, revision: Id, code: string)
    requires OneJobEach(db)
    ensures OneJobEach(FailGeneration(db, revision, code).0)
  {
    OneJobCarries(db, FailGeneration(db, revision, code).0);
  }

  lemma FailMirror(db: Db, revision: Id, code: string)
    requires JobsMirror(db)
    ensures JobsMirror(FailGeneration(db, revision, code).0)
  {
    var (next, outcome) := FailGeneration(db, revision, code);
    if outcome == Committed { ClosedMirror(db, next, revision, FAILED, Some(code)); }
    hide JobsMirror, CloseJobsOf;
  }

  lemma FailRows(cfg: Config, db: Db, revision: Id, code: string)
    requires RowsConsistent(cfg, db)
    ensures RowsConsistent(cfg, FailGeneration(db, revision, code).0)
  {
    ClosedRows(cfg, db, revision, FAILED, Some(code));
    hide CloseJobsOf, Lease.Consistent;
  }

  lemma FailKeeps(cfg: Config, db: Db, revision: Id, code: string)
    requires DbOk(cfg, db)
    ensures Keeps(db, FailGeneration(db, revision, code).0, None)
  {
    ClosedRows(cfg, db, revision, FAILED, Some(code));
  }

  /** A change of one row that stays on the same side of Mirrors keeps the database in order. */
  lemma RowOk(cfg: Config, db: Db, job: Id, row: Row, claimant: Option<WorkerId>)
    requires DbOk(cfg, db) && job in db.jobs
    requires Lease.Consistent(row, cfg.maxAttempts) && RowKeeps(db.jobs[job].row, row, claimant)
    requires row.status == db.jobs[job].row.status || (row.status in {PENDING, RUNNING} && db.jobs[job].row.status in {PENDING, RUNNING})
    ensures DbOk(cfg, WithRow(db, job, row)) && Keeps(db, WithRow(db, job, row), claimant)
  {
    hide JobsMirror, RowsConsistent, OneJobEach, Lease.Consistent, RowKeeps, Keeps, WithRow;
    RowMirror(db, job, row);
    RowsStay(cfg, db, job, row);
    RowOneJob(db, job, row);
    RowOneReview(db, job, row);
    RowKept(db, job, row, claimant);
  }

  lemma RowOneReview(db: Db, job: Id, row: Row)
    requires OneReviewEach(db) && job in db.jobs
    ensures OneReviewEach(WithRow(db, job, row))
  {
    hide CountReviews;
  }

  lemma RowMirror(db: Db, job: Id, row: Row)
    requires JobsMirror(db) && job in db.jobs
    requires row.status == db.jobs[job].row.status || (row.status in {PENDING, RUNNING} && db.jobs[job].row.status in {PENDING, RUNNING})
    ensures JobsMirror(WithRow(db, job, row))
  {
    assert Mirrors(db.jobs[job].row.status, db.revisions[db.jobs[job].revisionId].status);
  }

  lemma RowsStay(cfg: Config, db: Db, job: Id, row: Row)
    requires RowsConsistent(cfg, db) && job in db.jobs && Lease.Consistent(row, cfg.maxAttempts)
    ensures RowsConsistent(cfg, WithRow(db, job, row))
  {
    hide Lease.Consistent;
  }

  lemma RowOneJob(db: Db, job: Id, row: Row)
    requires OneJobEach(db) && job in db.jobs
    ensures OneJobEach(WithRow(db, job, row))
  {
    OneJobCarries(db, WithRow(db, job, row));
  }

  lemma RowKept(db: Db, job: Id, row: Row, claimant: Option<WorkerId>)
    requires job in db.jobs && RowKeeps(db.jobs[job].row, row, claimant)
    ensures Keeps(db, WithRow(db, job, row), claimant)
  {
    assert forall j :: j in db.jobs && j != job ==> RowKeeps(db.jobs[j].row, db.jobs[j].row, claimant);
    hide RowKeeps;
  }

  // ---- the worker invariant ----

  ghost predicate JobOf(db: Db, job: Id, revision: Id) {
    job in db.jobs && db.jobs[job].revisionId == revision && revision in db.revisions
  }

  /** While `worker` holds the lock, the attempt it remembers is the row's. */
  ghost predicate Attempting(cfg: Config, db: Db, worker: WorkerId, job: Id, revision: Id, attempt: nat) {
    && JobOf(db, job, revision)
    && 1 <= attempt <= cfg.maxAttempts && attempt <= db.jobs[job].row.attempts
    && (Owned(db.jobs[job].row, worker) ==> db.jobs[job].row.attempts == attempt)
  }

  ghost predicate PcOk(cfg: Config, db: Db, worker: WorkerId, pc: Pc) {
    match pc
    case Idle => true
    case Loading(j, r, a) => Attempting(cfg, db, worker, j, r, a)
    case Generating(j, r, a) => Attempting(cfg, db, worker, j, r, a)
    case Completing(j, r, a, _) => Attempting(cfg, db, worker, j, r, a)
    case Retrying(j, r, a, _) => Attempting(cfg, db, worker, j, r, a) && a < cfg.maxAttempts
    case Failing(j, r, _) => JobOf(db, j, r)
    case AckingSuccess(j, r) => JobOf(db, j, r) && Completed(db.revisions[r].status)
    case AckingFailure(j, r, _) => JobOf(db, j, r) && db.revisions[r].status == GENERATION_FAILED
  }

  ghost predicate PcsOk(cfg: Config, w: World) {
    forall worker :: PcOk(cfg, w.db, worker, PcOf(w, worker))
  }

  /** No attempt calls the generator twice, and none that is still loading has called it. */
  ghost predicate CallsOk(cfg: Config, w: World) {
    && (forall i, k :: 0 <= i < k < |w.calls| ==> w.calls[i] != w.calls[k])
    && (forall c :: c in w.calls ==> c.0 in w.db.jobs && 1 <= c.1 <= cfg.maxAttempts && c.1 <= w.db.jobs[c.0].row.attempts)
    && (forall u :: PcOf(w, u).Loading? ==> (PcOf(w, u).job, PcOf(w, u).attempt) !in w.calls)
    && (forall u, v :: u != v && PcOf(w, u).Loading? && PcOf(w, v).Loading? ==>
        (PcOf(w, u).job, PcOf(w, u).attempt) != (PcOf(w, v).job, PcOf(w, v).attempt))
  }

  ghost predicate Inv(cfg: Config, w: World) {
    DbOk(cfg, w.db) && PcsOk(cfg, w) && CallsOk(cfg, w)
  }

  ghost predicate StepFine(cfg: Config, w: World, next: World) {
    Inv(cfg, next) && RevisionsKeep(w.db, next.db)
  }

  lemma PcStable(cfg: Config, db: Db, next: Db, claimant: Option<WorkerId>, worker: WorkerId, pc: Pc)
    requires PcOk(cfg, db, worker, pc) && Keeps(db, next, claimant) && claimant != Some(worker)
    ensures PcOk(cfg, next, worker, pc)
  {
  }

  lemma CallsStable(cfg: Config, w: World, actor: WorkerId, db: Db, claimant: Option<WorkerId>, pc: Pc)
    requires PcsOk(cfg, w) && CallsOk(cfg, w) && Keeps(w.db, db, claimant)
    requires pc.Loading? ==> pc.job in w.db.jobs && pc.attempt > w.db.jobs[pc.job].row.attempts
    ensures CallsOk(cfg, Goto(w.(db := db), actor, pc))
  {
    var next := Goto(w.(db := db), actor, pc);
    assert forall u :: PcOf(next, u) == if u == actor then pc else PcOf(w, u);
    forall u | u != actor && PcOf(w, u).Loading? && pc.Loading?
      ensures (PcOf(w, u).job, PcOf(w, u).attempt) != (pc.job, pc.attempt)
    {
      assert PcOk(cfg, w.db, u, PcOf(w, u));
    }
  }

  lemma PcsStable(cfg: Config, w: World, actor: WorkerId, db: Db, claimant: Option<WorkerId>, pc: Pc)
    requires PcsOk(cfg, w) && Keeps(w.db, db, claimant) && claimant in {None, Some(actor)}
    requires PcOk(cfg, db, actor, pc)
    ensures PcsOk(cfg, Goto(w.(db := db), actor, pc))
  {
    var next := Goto(w.(db := db), actor, pc);
    forall u ensures PcOk(cfg, db, u, PcOf(next, u)) {
      if u != actor { PcStable(cfg, w.db, db, claimant, u, PcOf(w, u)); }
    }
  }

  lemma PcsView(cfg: Config, w: World, next: World)
    requires PcsOk(cfg, w) && next.db == w.db && next.pcs == w.pcs
    ensures PcsOk(cfg, next)
  {
    forall u ensures PcOk(cfg, next.db, u, PcOf(next, u)) {
      assert PcOf(next, u) == PcOf(w, u);
    }
  }

  /** A transaction by anyone, followed by `actor` moving on. */
  lemma StepOk(cfg: Config, w: World, actor: WorkerId, db: Db, claimant: Option<WorkerId>, pc: Pc)
    requires Inv(cfg, w) && DbOk(cfg, db) && Keeps(w.db, db, claimant)
    requires claimant in {None, Some(actor)}
    requires PcOk(cfg, db, actor, pc)
    requires pc.Loading? ==> pc.job in w.db.jobs && pc.attempt > w.db.jobs[pc.job].row.attempts
    ensures StepFine(cfg, w, Goto(w.(db := db), actor, pc))
  {
    CallsStable(cfg, w, actor, db, claimant, pc);
    PcsStable(cfg, w, actor, db, claimant, pc);
  }

  /** A transaction by `actor`, which then is done with its job. */
  lemma StepToIdle(cfg: Config, w: World, actor: WorkerId, db: Db)
    requires Inv(cfg, w) && DbOk(cfg, db) && Keeps(w.db, db, None)
    ensures StepFine(cfg, w, Goto(w.(db := db), actor, Idle))
  {
    StepOk(cfg, w, actor, db, None, Idle);
  }

  /** A transaction after which no worker moves. */
  lemma QuietOk(cfg: Config, w: World, db: Db)
    requires Inv(cfg, w) && DbOk(cfg, db) && Keeps(w.db, db, None)
    ensures StepFine(cfg, w, w.(db := db))
  {
    forall u ensures PcOk(cfg, db, u, PcOf(w, u)) {
      PcStable(cfg, w.db, db, None, u, PcOf(w, u));
    }
    assert forall u :: PcOf(w.(db := db), u) == PcOf(w, u);
  }

  // ---- every action keeps the invariant ----

  lemma PcAt(cfg: Config, w: World, worker: WorkerId)
    requires Inv(cfg, w)
    ensures PcOk(cfg, w.db, worker, PcOf(w, worker)) && DbOk(cfg, w.db)
    ensures Keeps(w.db, w.db, None) && StepFine(cfg, w, w)
  {
  }

  lemma ClaimStep(cfg: Config, w: World, worker: WorkerId, job: Id)
    requires Inv(cfg, w)
    ensures StepFine(cfg, w, ApplyClaim(cfg, w, worker, job))
  {
    if PcOf(w, worker) == Idle && CanClaim(w.db, job, w.now, cfg) {
      var row := Claimed(w.db.jobs[job].row, worker, w.now, cfg.leaseMs, true);
      RowOk(cfg, w.db, job, row, Some(worker));
      var next := ApplyClaim(cfg, w, worker, job);
      StepOk(cfg, w, worker, next.db, Some(worker), next.pcs[worker]);
    }
  }

  lemma LoadStep(cfg: Config, w: World, worker: WorkerId, readError: Option<Failure>)
    requires Inv(cfg, w)
    ensures StepFine(cfg, w, ApplyLoad(cfg, w, worker, readError))
  {
    PcAt(cfg, w, worker);
    hide DbOk, PcsOk, CallsOk, Keeps;
    var pc := PcOf(w, worker);
    if pc.Loading? {
      var next := ApplyLoad(cfg, w, worker, readError);
      LoadedPcOk(cfg, w, worker, readError);
      hide PcOk, OnError;
      StepOk(cfg, w, worker, w.db, None, next.pcs[worker]);
      PcsView(cfg, Goto(w, worker, next.pcs[worker]), next);
      if next.calls != w.calls { CallRecorded(cfg, w, worker); }
    }
  }

  /** Wherever the read leaves its caller, the caller's invariant holds. */
  lemma LoadedPcOk(cfg: Config, w: World, worker: WorkerId, readError: Option<Failure>)
    requires PcOk(cfg, w.db, worker, PcOf(w, worker)) && PcOf(w, worker).Loading?
    ensures var next := ApplyLoad(cfg, w, worker, readError);
            next.pcs == w.pcs[worker := next.pcs[worker]] && PcOk(cfg, w.db, worker, next.pcs[worker]) && !next.pcs[worker].Loading?
  {
    var pc := PcOf(w, worker);
    ErrorPcOk(cfg, w.db, worker, pc.job, pc.revision, pc.attempt, if readError.Some? then readError.value else DOMAIN_ERROR);
    ErrorEnds(cfg, pc.job, pc.revision, pc.attempt, if readError.Some? then readError.value else DOMAIN_ERROR);
    hide OnError;
  }

  lemma ErrorEnds(cfg: Config, job: Id, revision: Id, attempt: nat, failure: Failure)
    ensures !OnError(cfg, job, revision, attempt, failure).Loading?
  {
  }

  lemma CallRecorded(cfg: Config, w: World, worker: WorkerId)
    requires Inv(cfg, w) && PcOf(w, worker).Loading?
    ensures var pc := PcOf(w, worker);
            CallsOk(cfg, Goto(w.(calls := w.calls + [(pc.job, pc.attempt)]), worker, Generating(pc.job, pc.revision, pc.attempt)))
  {
    var pc := PcOf(w, worker);
    assert PcOk(cfg, w.db, worker, pc);
    var next := Goto(w.(calls := w.calls + [(pc.job, pc.attempt)]), worker, Generating(pc.job, pc.revision, pc.attempt));
    assert forall u :: u != worker ==> PcOf(next, u) == PcOf(w, u);
    assert !PcOf(next, worker).Loading?;
    assert forall c :: c in next.calls ==> c in w.calls || c == (pc.job, pc.attempt);
  }

  lemma GeneratorStep(cfg: Config, w: World, worker: WorkerId, data: Document, schemaValid: bool, failure: Failure)
    requires Inv(cfg, w)
    ensures StepFine(cfg, w, ApplyGenerated(cfg, w, worker, data, schemaValid))
    ensures StepFine(cfg, w, ApplyGeneratorFailed(cfg, w, worker, failure))
  {
    PcAt(cfg, w, worker);
    hide DbOk, PcsOk, CallsOk, Keeps;
    if PcOf(w, worker).Generating? {
      StepOk(cfg, w, worker, w.db, None, ApplyGenerated(cfg, w, worker, data, schemaValid).pcs[worker]);
      StepOk(cfg, w, worker, w.db, None, ApplyGeneratorFailed(cfg, w, worker, failure).pcs[worker]);
    }
  }

  lemma ErrorPcOk(cfg: Config, db: Db, worker: WorkerId, job: Id, revision: Id, attempt: nat, failure: Failure)
    requires Attempting(cfg, db, worker, job, revision, attempt)
    ensures PcOk(cfg, db, worker, OnError(cfg, job, revision, attempt, failure))
  {
    hide Classify;
  }

  lemma CompleteStep(cfg: Config, w: World, worker: WorkerId, reply: Reply)
    requires Inv(cfg, w)
    ensures StepFine(cfg, w, ApplyComplete(cfg, w, worker, reply))
  {
    hide Inv, StepFine, DbOk, Keeps, PcOk, CompleteGeneration, Classify;
    PcAt(cfg, w, worker);
    var pc := PcOf(w, worker);
    if pc.Completing? {
      CompleteOk(cfg, w.db, pc.revision, pc.data);
      CompleteKeeps(cfg, w.db, pc.revision, pc.data);
      CompletedPcOk(cfg, w.db, worker, pc, if reply.Arrived? then DOMAIN_ERROR else reply.failure);
      var next := ApplyComplete(cfg, w, worker, reply);
      StepOk(cfg, w, worker, next.db, None, next.pcs[worker]);
    }
  }

  /** Wherever `completeGeneration` leaves its caller, the caller's invariant holds. */
  lemma CompletedPcOk(cfg: Config, db: Db, worker: WorkerId, pc: Pc, failure: Failure)
    requires DbOk(cfg, db) && pc.Completing? && PcOk(cfg, db, worker, pc)
    ensures var (next, outcome) := CompleteGeneration(db, pc.revision, pc.data);
            && PcOk(cfg, db, worker, OnError(cfg, pc.job, pc.revision, pc.attempt, failure))
            && PcOk(cfg, next, worker, OnError(cfg, pc.job, pc.revision, pc.attempt, failure))
            && (outcome == Committed ==> PcOk(cfg, next, worker, AckingSuccess(pc.job, pc.revision)))
  {
    ErrorPcOk(cfg, db, worker, pc.job, pc.revision, pc.attempt, failure);
    CompleteKeeps(cfg, db, pc.revision, pc.data);
    PcStable(cfg, db, CompleteGeneration(db, pc.revision, pc.data).0, None, worker, OnError(cfg, pc.job, pc.revision, pc.attempt, failure));
    hide OnError;
  }

  lemma RetryOk(cfg: Config, db: Db, worker: WorkerId, pc: Pc, availableAt: int)
    requires DbOk(cfg, db) && pc.Retrying? && PcOk(cfg, db, worker, pc)
    ensures DbOk(cfg, Retry(db, pc.job, worker, availableAt, pc.code).0)
    ensures Keeps(db, Retry(db, pc.job, worker, availableAt, pc.code).0, None)
  {
    if Owns(db, pc.job, worker) { RowOk(cfg, db, pc.job, Requeued(db.jobs[pc.job].row, availableAt, pc.code), None); }
  }

  lemma RetryStep(cfg: Config, w: World, worker: WorkerId, random: real, reply: Reply)
    requires Inv(cfg, w)
    ensures StepFine(cfg, w, ApplyRetry(w, worker, random, reply))
  {
    hide Inv, StepFine, DbOk, Keeps, PcOk, Retry, BackoffMs;
    PcAt(cfg, w, worker);
    var pc := PcOf(w, worker);
    if pc.Retrying? {
      RetryOk(cfg, w.db, worker, pc, w.now + BackoffMs(pc.attempt, random));
      StepToIdle(cfg, w, worker, ApplyRetry(w, worker, random, reply).db);
    }
  }

  lemma MarkFailedStep(cfg: Config, w: World, worker: WorkerId, reply: Reply)
    requires Inv(cfg, w)
    ensures StepFine(cfg, w, ApplyMarkFailed(w, worker, reply))
  {
    PcAt(cfg, w, worker);
    hide DbOk, PcsOk, CallsOk, Keeps, Inv, StepFine, FailGeneration, PcOk;
    var pc := PcOf(w, worker);
    if pc.Failing? {
      FailOk(cfg, w.db, pc.revision, pc.code);
      FailKeeps(cfg, w.db, pc.revision, pc.code);
      FailedPcOk(cfg, w.db, worker, pc);
      var next := ApplyMarkFailed(w, worker, reply);
      StepOk(cfg, w, worker, next.db, None, next.pcs[worker]);
    }
  }

  /** Wherever `failGeneration` leaves its caller, the caller's invariant holds. */
  lemma FailedPcOk(cfg: Config, db: Db, worker: WorkerId, pc: Pc)
    requires DbOk(cfg, db) && pc.Failing? && PcOk(cfg, db, worker, pc)
    ensures var (next, outcome) := FailGeneration(db, pc.revision, pc.code);
            && PcOk(cfg, db, worker, Idle) && PcOk(cfg, next, worker, Idle)
            && (outcome == Committed ==> PcOk(cfg, next, worker, AckingFailure(pc.job, pc.revision, pc.code)))
  {
    FailKeeps(cfg, db, pc.revision, pc.code);
    FailedStatus(db, pc.revision, pc.code);
    hide DbOk, Keeps, FailGeneration;
    PcStable(cfg, db, FailGeneration(db, pc.revision, pc.code).0, None, worker, pc);
  }

  lemma FailedStatus(db: Db, revision: Id, code: string)
    ensures var (next, outcome) := FailGeneration(db, revision, code);
            outcome == Committed ==> revision in next.revisions && next.revisions[revision].status == GENERATION_FAILED
  {
    hide CloseJobsOf;
  }

  /** By the time a worker acknowledges, the job row is already closed the same way. */
  lemma AckOk(cfg: Config, db: Db, worker: WorkerId, pc: Pc)
    requires DbOk(cfg, db) && PcOk(cfg, db, worker, pc)
    ensures pc.AckingSuccess? ==>
      var next := AcknowledgeSuccess(db, pc.job, worker).0;
      DbOk(cfg, next) && Keeps(db, next, None) && db.jobs[pc.job].row.status == SUCCEEDED
    ensures pc.AckingFailure? ==>
      var next := AcknowledgeFailure(db, pc.job, worker, pc.code).0;
      DbOk(cfg, next) && Keeps(db, next, None) && db.jobs[pc.job].row.status == FAILED
  {
    if pc.AckingSuccess? { RowOk(cfg, db, pc.job, Closed(db.jobs[pc.job].row, SUCCEEDED, db.jobs[pc.job].row.lastError), None); }
    if pc.AckingFailure? { RowOk(cfg, db, pc.job, Closed(db.jobs[pc.job].row, FAILED, Some(pc.code)), None); }
    hide DbOk, Keeps;
  }

  lemma AckSuccessStep(cfg: Config, w: World, worker: WorkerId, reply: Reply)
    requires Inv(cfg, w)
    ensures StepFine(cfg, w, ApplyAckSuccess(w, worker, reply))
  {
    hide Inv, StepFine, DbOk, Keeps, PcOk, AcknowledgeSuccess;
    PcAt(cfg, w, worker);
    var pc := PcOf(w, worker);
    if pc.AckingSuccess? {
      AckOk(cfg, w.db, worker, pc);
      StepToIdle(cfg, w, worker, ApplyAckSuccess(w, worker, reply).db);
    }
  }

  lemma AckFailureStep(cfg: Config, w: World, worker: WorkerId, reply: Reply)
    requires Inv(cfg, w)
    ensures StepFine(cfg, w, ApplyAckFailure(w, worker, reply))
  {
    hide Inv, StepFine, DbOk, Keeps, PcOk, AcknowledgeFailure;
    PcAt(cfg, w, worker);
    var pc := PcOf(w, worker);
    if pc.AckingFailure? {
      AckOk(cfg, w.db, worker, pc);
      StepToIdle(cfg, w, worker, ApplyAckFailure(w, worker, reply).db);
    }
  }

  lemma StoreStep(cfg: Config, w: World, a: Action)
    requires Inv(cfg, w) && cfg.maxAttempts > 0
    requires a.Submit? || a.Edit? || a.Approve? || a.CompleteElsewhere? || a.FailElsewhere?
    ensures StepFine(cfg, w, Apply(cfg, w, a))
  {
    match a
    case Submit(workspace, key, answers, newProfile, newRevision, newJob) =>
      if FreshSubmission(w.db, newRevision, newJob) {
        CreateOk(cfg, w.db, workspace, key, answers, newProfile, newRevision, newJob, w.now);
        CreateKeeps(w.db, workspace, key, answers, newProfile, newRevision, newJob, w.now);
        QuietOk(cfg, w, Apply(cfg, w, a).db);
      }
    case Edit(base, newRevision, data) =>
      if newRevision !in w.db.revisions {
        EditOk(cfg, w.db, base, newRevision, data);
        QuietOk(cfg, w, Apply(cfg, w, a).db);
      }
    case Approve(revision) =>
      ApproveOk(cfg, w.db, revision);
      ApproveKeeps(w.db, revision);
      QuietOk(cfg, w, Apply(cfg, w, a).db);
    case CompleteElsewhere(revision, data) =>
      CompleteOk(cfg, w.db, revision, data);
      CompleteKeeps(cfg, w.db, revision, data);
      QuietOk(cfg, w, Apply(cfg, w, a).db);
    case FailElsewhere(revision, code) =>
      FailOk(cfg, w.db, revision, code);
      FailKeeps(cfg, w.db, revision, code);
      QuietOk(cfg, w, Apply(cfg, w, a).db);
  }

  lemma ExtendOk(cfg: Config, db: Db, worker: WorkerId, job: Id, now: int)
    requires DbOk(cfg, db) && Keeps(db, db, None)
    ensures DbOk(cfg, ExtendLease(db, job, worker, now, cfg).0) && Keeps(db, ExtendLease(db, job, worker, now, cfg).0, None)
  {
    if Owns(db, job, worker) {
      assert Lease.Consistent(db.jobs[job].row, cfg.maxAttempts);
      hide DbOk, Keeps;
      RowOk(cfg, db, job, Extended(db.jobs[job].row, now, cfg.leaseMs), None);
    }
  }

  lemma HeartbeatStep(cfg: Config, w: World, worker: WorkerId, job: Id)
    requires Inv(cfg, w)
    ensures StepFine(cfg, w, w.(db := ExtendLease(w.db, job, worker, w.now, cfg).0))
  {
    PcAt(cfg, w, worker);
    ExtendOk(cfg, w.db, worker, job, w.now);
    hide DbOk, PcsOk, CallsOk, Keeps, ExtendLease;
    QuietOk(cfg, w, ExtendLease(w.db, job, worker, w.now, cfg).0);
  }

  lemma WorkspaceStep(cfg: Config, w: World, workspace: Id, active: bool)
    requires Inv(cfg, w)
    ensures StepFine(cfg, w, w.(db := w.db.(workspaces := w.db.workspaces[workspace := active])))
  {
    var db := w.db.(workspaces := w.db.workspaces[workspace := active]);
    OneJobCarries(w.db, db);
    QuietOk(cfg, w, db);
  }

  lemma TickStep(cfg: Config, w: World, ms: nat)
    requires Inv(cfg, w)
    ensures StepFine(cfg, w, w.(now := w.now + ms))
  {
    var next := w.(now := w.now + ms);
    PcsView(cfg, w, next);
    forall u ensures PcOf(next, u) == PcOf(w, u) { }
    assert CallsOk(cfg, next);
  }

  lemma ApplyOk(cfg: Config, w: World, a: Action)
    requires Inv(cfg, w) && cfg.maxAttempts > 0
    ensures StepFine(cfg, w, Apply(cfg, w, a))
  {
    hide StepFine, Keeps, DbOk;
    match a
    case ClaimJob(worker, job) => ClaimStep(cfg, w, worker, job);
    case Load(worker, readError) => LoadStep(cfg, w, worker, readError);
    case Generated(worker, data, schemaValid) => GeneratorStep(cfg, w, worker, data, schemaValid, SCHEMA_ERROR);
    case GeneratorFailed(worker, failure) => GeneratorStep(cfg, w, worker, "", false, failure);
    case CompleteCall(worker, reply) => CompleteStep(cfg, w, worker, reply);
    case RetryCall(worker, random, reply) => RetryStep(cfg, w, worker, random, reply);
    case MarkFailedCall(worker, reply) => MarkFailedStep(cfg, w, worker, reply);
    case AckSuccessCall(worker, reply) => AckSuccessStep(cfg, w, worker, reply);
    case AckFailureCall(worker, reply) => AckFailureStep(cfg, w, worker, reply);
    case Tick(ms) => TickStep(cfg, w, ms);
    case AddWorkspace(workspace, active) => WorkspaceStep(cfg, w, workspace, active);
    case Heartbeat(worker, job) => HeartbeatStep(cfg, w, worker, job);
    case Crash(worker) => PcAt(cfg, w, worker); StepToIdle(cfg, w, worker, w.db);
    case _ => StoreStep(cfg, w, a);
  }

  lemma {:induction false} RunOk(cfg: Config, actions: seq<Action>)
    requires cfg.maxAttempts > 0
    ensures Inv(cfg, Run(cfg, actions))
  {
    if actions != [] {
      RunOk(cfg, actions[..|actions| - 1]);
      ApplyOk(cfg, Run(cfg, actions[..|actions| - 1]), actions[|actions| - 1]);
    }
  }

  // ---- what holds of every run ----

  /** A job is PENDING or RUNNING exactly while its revision is GENERATING, FAILED exactly when
      it is GENERATION_FAILED, and SUCCEEDED otherwise; every revision still generating or failed has one job. */
  lemma JobMirrorsRevision(cfg: Config, actions: seq<Action>)
    requires cfg.maxAttempts > 0
    ensures var db := Run(cfg, actions).db;
            && (forall j :: j in db.jobs ==>
                 && db.jobs[j].revisionId in db.revisions
                 && Mirrors(db.jobs[j].row.status, db.revisions[db.jobs[j].revisionId].status))
            && (forall r :: r in db.revisions && db.revisions[r].status in {GENERATING, GENERATION_FAILED} ==>
                 exists j :: j in db.jobs && db.jobs[j].revisionId == r)
            && (forall i, j :: i in db.jobs && j in db.jobs && db.jobs[i].revisionId == db.jobs[j].revisionId ==> i == j)
  {
    RunOk(cfg, actions);
  }

  /** A revision with a result has exactly one review-required event, every other id has none. */
  lemma OneReviewEvent(cfg: Config, actions: seq<Action>, r: Id)
    requires cfg.maxAttempts > 0
    ensures var db := Run(cfg, actions).db;
            CountReviews(db.outbox, r) == if r in db.revisions && Completed(db.revisions[r].status) then 1 else 0
  {
    RunOk(cfg, actions);
  }

  /** Between any two moments of a run a revision keeps its profile, number, answers and key, and its status only
      moves forward. */
  lemma {:induction false} RevisionHistory(cfg: Config, actions: seq<Action>, i: nat, k: nat, r: Id)
    requires cfg.maxAttempts > 0 && i <= k <= |actions| && r in Run(cfg, actions[..i]).db.revisions
    ensures r in Run(cfg, actions[..k]).db.revisions
    ensures RevisionKeeps(Run(cfg, actions[..i]).db.revisions[r], Run(cfg, actions[..k]).db.revisions[r])
    decreases k
  {
    if i < k {
      RevisionHistory(cfg, actions, i, k - 1, r);
      RunOk(cfg, actions[..k - 1]);
      assert actions[..k][..k - 1] == actions[..k - 1];
      ApplyOk(cfg, Run(cfg, actions[..k - 1]), actions[k - 1]);
    }
  }

  ghost predicate IsGenerating(cfg: Config, actions: seq<Action>, r: Id) {
    var db := Run(cfg, actions).db;
    r in db.revisions && db.revisions[r].status == GENERATING
  }

  /** The action at position i takes revision r out of GENERATING. */
  ghost predicate Leaves(cfg: Config, actions: seq<Action>, i: nat, r: Id) {
    i < |actions| && IsGenerating(cfg, actions[..i], r) && !IsGenerating(cfg, actions[..i + 1], r)
  }

  /** However late a stale worker finishes, a revision leaves GENERATING at most once. */
  lemma LeavesGeneratingOnce(cfg: Config, actions: seq<Action>, i: nat, k: nat, r: Id)
    requires cfg.maxAttempts > 0 && Leaves(cfg, actions, i, r) && Leaves(cfg, actions, k, r)
    ensures i == k
  {
    var first, last := if i < k then i else k, if i < k then k else i;
    if first < last {
      RevisionHistory(cfg, actions, first, first + 1, r);
      RevisionHistory(cfg, actions, first + 1, last, r);
    }
  }

  /** The first recorded result stays: a completed revision keeps its profile for the rest of the run,
      and a failed one stays failed. */
  lemma OutcomeIsFinal(cfg: Config, actions: seq<Action>, i: nat, k: nat, r: Id)
    requires cfg.maxAttempts > 0 && i <= k <= |actions| && r in Run(cfg, actions[..i]).db.revisions
    ensures var before, after := Run(cfg, actions[..i]).db.revisions[r], Run(cfg, actions[..k]).db;
            && r in after.revisions
            && (Completed(before.status) ==> Completed(after.revisions[r].status) && after.revisions[r].profileData == before.profileData)
            && (before.status == GENERATION_FAILED ==> after.revisions[r].status == GENERATION_FAILED)
  {
    RevisionHistory(cfg, actions, i, k, r);
  }

  /** No PENDING job is stranded: once it is due, any worker can claim it. Attempts never pass max + 1. */
  lemma PendingIsClaimable(cfg: Config, actions: seq<Action>, job: Id, now: int)
    requires cfg.maxAttempts > 0 && job in Run(cfg, actions).db.jobs
    ensures var row := Run(cfg, actions).db.jobs[job].row;
            && row.attempts <= cfg.maxAttempts + 1
            && (row.status == PENDING && row.availableAt <= now ==> CanClaim(Run(cfg, actions).db, job, now, cfg))
  {
    RunOk(cfg, actions);
  }

  /** The attempts of `job` that called the generator, as a set. */
  ghost function CallingAttempts(calls: seq<(Id, nat)>, job: Id): set<nat> {
    set c | c in calls && c.0 == job :: c.1
  }

  function CallCount(calls: seq<(Id, nat)>, job: Id): nat {
    if calls == [] then 0
    else CallCount(calls[..|calls| - 1], job) + if calls[|calls| - 1].0 == job then 1 else 0
  }

  lemma NextCall(calls: seq<(Id, nat)>, c: (Id, nat), job: Id)
    requires c !in calls
    ensures CallingAttempts(calls + [c], job) == CallingAttempts(calls, job) + if c.0 == job then {c.1} else {}
    ensures c.0 == job ==> c.1 !in CallingAttempts(calls, job)
  {
    assert c in calls + [c];
  }

  lemma {:induction false} DistinctCallsCount(calls: seq<(Id, nat)>, job: Id)
    requires forall i, k :: 0 <= i < k < |calls| ==> calls[i] != calls[k]
    ensures CallCount(calls, job) == |CallingAttempts(calls, job)|
  {
    if calls != [] {
      var n := |calls| - 1;
      DistinctCallsCount(calls[..n], job);
      assert calls == calls[..n] + [calls[n]];
      NextCall(calls[..n], calls[n], job);
      hide CallingAttempts;
    }
  }

  ghost function UpTo(n: nat): (s: set<nat>)
    ensures forall x: nat :: x in s <==> 1 <= x <= n
    ensures |s| == n
  {
    if n == 0 then {} else UpTo(n - 1) + {n}
  }

  lemma {:induction false} SubsetSize(a: set<nat>, b: set<nat>)
    requires a <= b
    ensures |a| <= |b|
  {
    if a != {} {
      var x :| x in a;
      SubsetSize(a - {x}, b - {x});
    }
  }

  /** Over the whole run, the generator is called at most maxAttempts times for a job. */
  lemma GeneratorCallBound(cfg: Config, actions: seq<Action>, job: Id)
    requires cfg.maxAttempts > 0
    ensures CallCount(Run(cfg, actions).calls, job) <= cfg.maxAttempts
  {
    RunOk(cfg, actions);
    var calls := Run(cfg, actions).calls;
    DistinctCallsCount(calls, job);
    SubsetSize(CallingAttempts(calls, job), UpTo(cfg.maxAttempts));
  }
}
