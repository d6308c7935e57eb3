/**
 The tables the brand store and the generation queue share, and what each of their
 transactions does to them (src/brand/postgres-store.ts, src/jobs/postgres-generation-queue.ts).
 Every function below is one committed transaction; the methods of `BrandDatabase` run its
 statements one by one and are proved to have that effect.
 */
module GenerationDatabase {
  import opened Lease

  type Id = string
  type Document = string

  datatype RevisionStatus = GENERATING | REVIEW_REQUIRED | APPROVED | SUPERSEDED | GENERATION_FAILED

  datatype Revision = Revision(
    profileId: Id,
    number: nat,
    status: RevisionStatus,
    answers: Document,
    profileData: Option<Document>,
    failureCode: Option<string>,
    onboardingKey: Option<string>)

  datatype Job = Job(revisionId: Id, row: Row)

  datatype Topic = GenerationRequested | ReviewRequired | ProfileApproved

  datatype Event = Event(topic: Topic, revisionId: Id)

  /** `workspaces` says of each workspace whether it is ACTIVE; `profiles` is keyed by workspace. */
  datatype Db = Db(
    workspaces: map<Id, bool>,
    profiles: map<Id, Id>,
    revisions: map<Id, Revision>,
    jobs: map<Id, Job>,
    outbox: seq<Event>)

  datatype Outcome = Committed | NotFound | Conflict

  predicate Completed(status: RevisionStatus) { status in {REVIEW_REQUIRED, APPROVED, SUPERSEDED} }

  // ---- brand store transactions ----

  /** `COALESCE(MAX(revision), 0) + 1` over the profile's revisions. */
  ghost predicate IsNext(revisions: map<Id, Revision>, profile: Id, n: nat) {
    && n >= 1
    && (forall id :: id in revisions && revisions[id].profileId == profile ==> revisions[id].number < n)
    && (n > 1 ==> exists id :: id in revisions && revisions[id].profileId == profile && revisions[id].number == n - 1)
  }

  ghost function NextNumber(revisions: map<Id, Revision>, profile: Id): (n: nat)
    ensures IsNext(revisions, profile, n)
    decreases |revisions|
  {
    if revisions == map[] then 1
    else
      var id :| id in revisions;
      var others := revisions - {id};
      var n := NextNumber(others, profile);
      assert forall r :: r in revisions ==> r == id || r in others;
      if revisions[id].profileId == profile && revisions[id].number >= n then revisions[id].number + 1 else n
  }

  lemma NextIsUnique(revisions: map<Id, Revision>, profile: Id, n: nat)
    requires IsNext(revisions, profile, n)
    ensures n == NextNumber(revisions, profile)
  {
  }

  ghost predicate SameSubmission(db: Db, id: Id, profile: Id, key: string) {
    && id in db.revisions
    && db.revisions[id].profileId == profile
    && db.revisions[id].onboardingKey == Some(key)
    && exists j :: j in db.jobs && db.jobs[j].revisionId == id
  }

  ghost predicate Submitted(db: Db, profile: Id, key: string) {
    exists id :: SameSubmission(db, id, profile, key)
  }

  function ProfileOf(db: Db, workspace: Id, newProfile: Id): Id {
    if workspace in db.profiles then db.profiles[workspace] else newProfile
  }

  /** A new submission carries the next number of its profile. */
  ghost function Submission(db: Db, profile: Id, key: string, answers: Document): Revision {
    Revision(profile, NextNumber(db.revisions, profile), GENERATING, answers, None, None, Some(key))
  }

  /** The ids are fresh random UUIDs; a repeated key for the same profile inserts nothing. */
  ghost function CreateRevision(db: Db, workspace: Id, key: string, answers: Document,
                                newProfile: Id, newRevision: Id, newJob: Id, now: int): (Db, Outcome)
  {
    if workspace !in db.workspaces then (db, NotFound)
    else if !db.workspaces[workspace] then (db, Conflict)
    else
      var profile := ProfileOf(db, workspace, newProfile);
      var withProfile := db.(profiles := db.profiles[workspace := profile]);
      if Submitted(db, profile, key) then (withProfile, Committed)
      else
        (withProfile.(
         revisions := db.revisions[newRevision := Submission(db, profile, key, answers)],
         jobs := db.jobs[newJob := Job(newRevision, Enqueued(now))],
         outbox := db.outbox + [Event(GenerationRequested, newRevision)]), Committed)
  }

  /** An edit copies the answers of its base and carries the next number of the profile. */
  ghost function Edited(db: Db, base: Id, data: Document): Revision
    requires base in db.revisions
  {
    var profile := db.revisions[base].profileId;
    Revision(profile, NextNumber(db.revisions, profile), REVIEW_REQUIRED, db.revisions[base].answers, Some(data), None, None)
  }

  ghost function CreateEditedRevision(db: Db, base: Id, newRevision: Id, data: Document): (Db, Outcome) {
    if base !in db.revisions then (db, NotFound)
    else if db.revisions[base].profileData.None? || !Completed(db.revisions[base].status) then (db, Conflict)
    else
      (db.(
       revisions := db.revisions[newRevision := Edited(db, base, data)],
       outbox := db.outbox + [Event(ReviewRequired, newRevision)]), Committed)
  }

  /** `UPDATE generation_jobs ... WHERE revision_id = $1` */
  function CloseJobsOf(jobs: map<Id, Job>, revision: Id, status: Status, lastError: Option<string>): map<Id, Job> {
    map j | j in jobs ::
      if jobs[j].revisionId == revision
      then Job(revision, Closed(jobs[j].row, status, if lastError.Some? then lastError else jobs[j].row.lastError))
      else jobs[j]
  }

  predicate HasJob(jobs: map<Id, Job>, revision: Id) {
    exists j | j in jobs :: jobs[j].revisionId == revision
  }

  lemma CloseKeepsOwners(jobs: map<Id, Job>, revision: Id, status: Status, lastError: Option<string>)
    ensures HasJob(CloseJobsOf(jobs, revision, status, lastError), revision) == HasJob(jobs, revision)
  {
    var closed := CloseJobsOf(jobs, revision, status, lastError);
    assert forall j :: j in jobs ==> closed[j].revisionId == jobs[j].revisionId;
    if HasJob(jobs, revision) {
      var j :| j in jobs && jobs[j].revisionId == revision;
      assert closed[j].revisionId == revision;
    }
  }

  /** Guarded by the revision's status alone: who owns the job does not matter. The
      review event takes its correlation id from the job row, so it needs one. */
  function CompleteGeneration(db: Db, revision: Id, data: Document): (Db, Outcome) {
    if revision !in db.revisions then (db, NotFound)
    else if db.revisions[revision].status != GENERATING then (db, Conflict)
    else
      (db.(
       revisions := db.revisions[revision := db.revisions[revision].(status := REVIEW_REQUIRED, profileData := Some(data))],
       jobs := CloseJobsOf(db.jobs, revision, SUCCEEDED, None),
       outbox := db.outbox + if HasJob(db.jobs, revision) then [Event(ReviewRequired, revision)] else []), Committed)
  }

  function FailGeneration(db: Db, revision: Id, code: string): (Db, Outcome) {
    if revision !in db.revisions || db.revisions[revision].status != GENERATING then (db, Conflict)
    else
      (db.(
       revisions := db.revisions[revision := db.revisions[revision].(status := GENERATION_FAILED, failureCode := Some(code))],
       jobs := CloseJobsOf(db.jobs, revision, FAILED, Some(code))), Committed)
  }

  function Supersede(revisions: map<Id, Revision>, profile: Id): map<Id, Revision> {
    map id | id in revisions ::
      if revisions[id].profileId == profile && revisions[id].status == APPROVED
      then revisions[id].(status := SUPERSEDED) else revisions[id]
  }

  function ApproveRevision(db: Db, revision: Id): (Db, Outcome) {
    if revision !in db.revisions then (db, NotFound)
    else if db.revisions[revision].status != REVIEW_REQUIRED then (db, Conflict)
    else
      var rest := Supersede(db.revisions, db.revisions[revision].profileId);
      (db.(
       revisions := rest[revision := rest[revision].(status := APPROVED)],
       outbox := db.outbox + [Event(ProfileApproved, revision)]), Committed)
  }

  // ---- generation queue statements: each is one guarded UPDATE ----

  predicate CanClaim(db: Db, job: Id, now: int, cfg: Config) {
    job in db.jobs && Claimable(db.jobs[job].row, now, cfg.maxAttempts)
  }

  predicate Owns(db: Db, job: Id, worker: WorkerId) {
    job in db.jobs && Owned(db.jobs[job].row, worker)
  }

  function WithRow(db: Db, job: Id, row: Row): Db
    requires job in db.jobs
  {
    db.(jobs := db.jobs[job := db.jobs[job].(row := row)])
  }

  function Claim(db: Db, job: Id, worker: WorkerId, now: int, cfg: Config): Db
    requires CanClaim(db, job, now, cfg)
  {
    WithRow(db, job, Claimed(db.jobs[job].row, worker, now, cfg.leaseMs, true))
  }

  function ExtendLease(db: Db, job: Id, worker: WorkerId, now: int, cfg: Config): (Db, bool) {
    if Owns(db, job, worker) && Live(db.jobs[job].row, now)
    then (WithRow(db, job, Extended(db.jobs[job].row, now, cfg.leaseMs)), true)
    else (db, false)
  }

  function Retry(db: Db, job: Id, worker: WorkerId, availableAt: int, error: string): (Db, bool) {
    if Owns(db, job, worker) then (WithRow(db, job, Requeued(db.jobs[job].row, availableAt, error)), true)
    else (db, false)
  }

  function AcknowledgeSuccess(db: Db, job: Id, worker: WorkerId): (Db, bool) {
    if job in db.jobs && (db.jobs[job].row.status == SUCCEEDED || Owns(db, job, worker))
    then (WithRow(db, job, Closed(db.jobs[job].row, SUCCEEDED, db.jobs[job].row.lastError)), true)
    else (db, false)
  }

  function AcknowledgeFailure(db: Db, job: Id, worker: WorkerId, error: string): (Db, bool) {
    if job in db.jobs && (db.jobs[job].row.status == FAILED || Owns(db, job, worker))
    then (WithRow(db, job, Closed(db.jobs[job].row, FAILED, Some(error))), true)
    else (db, false)
  }

  // ---- what the statements promise each other ----

  /** Nothing but the row of one job differs, and nothing at all after a refusal. */
  ghost predicate OneRowOnly(db: Db, next: Db, job: Id, ok: bool) {
    && (!ok ==> next == db)
    && next.(jobs := db.jobs) == db && next.jobs.Keys == db.jobs.Keys
    && (forall j :: j in db.jobs && j != job ==> next.jobs[j] == db.jobs[j])
    && (ok ==> job in db.jobs && next.jobs[job].revisionId == db.jobs[job].revisionId)
  }

  /** A heartbeat needs the owner's live lease, a retry the owner alone, an acknowledgement the owner or a job
      already closed the same way; each touches that one row. */
  lemma QueueFences(db: Db, job: Id, worker: WorkerId, now: int, availableAt: int, error: string, cfg: Config)
    ensures var (next, ok) := ExtendLease(db, job, worker, now, cfg);
            OneRowOnly(db, next, job, ok) && (ok <==> Owns(db, job, worker) && Live(db.jobs[job].row, now))
            && (ok ==> Owns(next, job, worker) && Live(next.jobs[job].row, now + cfg.leaseMs - 1) && !Live(next.jobs[job].row, now + cfg.leaseMs))
    ensures var (next, ok) := Retry(db, job, worker, availableAt, error);
            OneRowOnly(db, next, job, ok) && (ok <==> Owns(db, job, worker))
    ensures var (next, ok) := AcknowledgeSuccess(db, job, worker);
            OneRowOnly(db, next, job, ok) && (ok <==> job in db.jobs && (Owns(db, job, worker) || db.jobs[job].row.status == SUCCEEDED))
    ensures var (next, ok) := AcknowledgeFailure(db, job, worker, error);
            OneRowOnly(db, next, job, ok) && (ok <==> job in db.jobs && (Owns(db, job, worker) || db.jobs[job].row.status == FAILED))
  {
  }

  /** Nobody's heartbeat, retry or acknowledgement is accepted for the job, so none changes anything. */
  ghost predicate Deaf(db: Db, job: Id, worker: WorkerId) {
    && (forall now: int, cfg: Config :: ExtendLease(db, job, worker, now, cfg) == (db, false))
    && (forall availableAt: int, error: string :: Retry(db, job, worker, availableAt, error) == (db, false))
    && AcknowledgeSuccess(db, job, worker) == (db, false)
    && (forall error: string :: AcknowledgeFailure(db, job, worker, error) == (db, false))
  }

  /** From a claim on, whoever held the job before is not listened to: only the claimant is. */
  lemma ClaimFencesOthers(db: Db, job: Id, worker: WorkerId, now: int, cfg: Config, other: WorkerId)
    requires CanClaim(db, job, now, cfg) && other != worker
    ensures Owns(Claim(db, job, worker, now, cfg), job, worker) && Deaf(Claim(db, job, worker, now, cfg), job, other)
  {
    var next := Claim(db, job, worker, now, cfg);
    assert !Owns(next, job, other) && next.jobs[job].row.status == RUNNING;
  }

  /** A retried job is nobody's until it is claimed, which it can be exactly from its due time on while attempts are left. */
  lemma RetriedIsNobodys(db: Db, job: Id, worker: WorkerId, availableAt: int, error: string, anyone: WorkerId, later: int, cfg: Config)
    requires Owns(db, job, worker)
    ensures var next := Retry(db, job, worker, availableAt, error).0;
            && Deaf(next, job, anyone)
            && (CanClaim(next, job, later, cfg) <==> availableAt <= later && db.jobs[job].row.attempts < cfg.maxAttempts)
  {
    var next := Retry(db, job, worker, availableAt, error).0;
    assert !Owns(next, job, anyone) && next.jobs[job].row.status == PENDING;
  }

  /** Once a revision completed, whoever still works on its job is told so: a success is acknowledged to anyone
      and changes nothing, and nobody can claim, extend, retry or fail the job. After a failure likewise. */
  lemma LateWorkerFindsOutcome(db: Db, revision: Id, data: Document, code: string, job: Id, worker: WorkerId,
                               now: int, availableAt: int, error: string, cfg: Config)
    requires job in db.jobs && db.jobs[job].revisionId == revision
    ensures var (next, outcome) := CompleteGeneration(db, revision, data);
            outcome == Committed ==>
              && AcknowledgeSuccess(next, job, worker) == (next, true)
              && !AcknowledgeFailure(next, job, worker, error).1 && !Retry(next, job, worker, availableAt, error).1
              && !ExtendLease(next, job, worker, now, cfg).1 && !CanClaim(next, job, now, cfg)
    ensures var (next, outcome) := FailGeneration(db, revision, code);
            outcome == Committed ==>
              && AcknowledgeFailure(next, job, worker, code) == (next, true)
              && !AcknowledgeSuccess(next, job, worker).1 && !Retry(next, job, worker, availableAt, error).1
              && !ExtendLease(next, job, worker, now, cfg).1 && !CanClaim(next, job, now, cfg)
  {
    hide HasJob;
    var (completed, c) := CompleteGeneration(db, revision, data);
    if c == Committed { assert completed.jobs[job := completed.jobs[job]] == completed.jobs; }
    var (failed, f) := FailGeneration(db, revision, code);
    if f == Committed { assert failed.jobs[job := failed.jobs[job]] == failed.jobs; }
  }

  /** Of a completion and a failure of one revision the first to commit refuses the other, and itself again. */
  lemma FirstOutcomeWins(db: Db, revision: Id, data: Document, code: string, laterData: Document, laterCode: string)
    ensures CompleteGeneration(db, revision, data).1 == Committed ==>
              var next := CompleteGeneration(db, revision, data).0;
              CompleteGeneration(next, revision, laterData) == (next, Conflict) && FailGeneration(next, revision, laterCode) == (next, Conflict)
    ensures FailGeneration(db, revision, code).1 == Committed ==>
              var next := FailGeneration(db, revision, code).0;
              CompleteGeneration(next, revision, laterData) == (next, Conflict) && FailGeneration(next, revision, laterCode) == (next, Conflict)
    ensures FailGeneration(db, revision, code).1 == Committed <==> CompleteGeneration(db, revision, data).1 == Committed
  {
    hide CloseJobsOf, HasJob;
  }

  /** The profile has a revision with this key and a job for it. */
  ghost predicate AlreadySubmitted(db: Db, profile: Id, key: string) {
    exists id, j :: id in db.revisions && db.revisions[id].profileId == profile && db.revisions[id].onboardingKey == Some(key)
                    && j in db.jobs && db.jobs[j].revisionId == id
  }

  /** One more than every number of the profile, and 1 or one more than one of them. */
  ghost predicate NumberedNext(db: Db, profile: Id, n: nat) {
    && n >= 1 && (forall id :: id in db.revisions && db.revisions[id].profileId == profile ==> db.revisions[id].number < n)
    && (n == 1 || exists id :: id in db.revisions && db.revisions[id].profileId == profile && db.revisions[id].number + 1 == n)
  }

  /** A submission to an active workspace finds its profile or makes it; if the key was submitted before it adds nothing
      more, and otherwise one generating revision with the answers and the next number, its due job and its event. */
  lemma SubmissionAddsOne(db: Db, workspace: Id, key: string, answers: Document, newProfile: Id, newRevision: Id, newJob: Id, now: int)
    requires newRevision !in db.revisions && newJob !in db.jobs
    ensures var (next, outcome) := CreateRevision(db, workspace, key, answers, newProfile, newRevision, newJob, now);
            var profile := if workspace in db.profiles then db.profiles[workspace] else newProfile;
            && (outcome == NotFound <==> workspace !in db.workspaces)
            && (outcome == Conflict <==> workspace in db.workspaces && !db.workspaces[workspace])
            && (outcome != Committed ==> next == db)
            && (outcome == Committed ==> next.workspaces == db.workspaces && next.profiles == db.profiles[workspace := profile])
            && (outcome == Committed && AlreadySubmitted(db, profile, key) ==>
                  next.revisions == db.revisions && next.jobs == db.jobs && next.outbox == db.outbox)
            && (outcome == Committed && !AlreadySubmitted(db, profile, key) ==>
                  && newRevision in next.revisions && next.revisions - {newRevision} == db.revisions
                  && NumberedNext(db, profile, next.revisions[newRevision].number)
                  && next.revisions[newRevision] == Revision(profile, next.revisions[newRevision].number, GENERATING, answers, None, None, Some(key))
                  && next.jobs == db.jobs[newJob := Job(newRevision, Row(PENDING, 0, now, None, None, None))]
                  && next.outbox == db.outbox + [Event(GenerationRequested, newRevision)])
  {
    var profile := ProfileOf(db, workspace, newProfile);
    SubmittedBefore(db, profile, key);
    var (next, outcome) := CreateRevision(db, workspace, key, answers, newProfile, newRevision, newJob, now);
    if outcome == Committed && !Submitted(db, profile, key) {
      assert IsNext(db.revisions, profile, next.revisions[newRevision].number);
      assert next.revisions - {newRevision} == db.revisions;
    }
    hide NextNumber, Submitted, AlreadySubmitted;
  }

  lemma SubmittedBefore(db: Db, profile: Id, key: string)
    ensures Submitted(db, profile, key) <==> AlreadySubmitted(db, profile, key)
  {
    if id :| SameSubmission(db, id, profile, key) {
      var j :| j in db.jobs && db.jobs[j].revisionId == id;
      assert AlreadySubmitted(db, profile, key);
    }
    if AlreadySubmitted(db, profile, key) {
      var id, j :| id in db.revisions && db.revisions[id].profileId == profile && db.revisions[id].onboardingKey == Some(key)
                   && j in db.jobs && db.jobs[j].revisionId == id;
      assert SameSubmission(db, id, profile, key);
    }
  }

  /** An edit is accepted exactly for a completed base. It leaves every revision as it is and adds one with the
      base's profile and answers, numbered after all revisions of the profile, which is announced for review and
      can be approved. */
  lemma EditAddsOne(db: Db, base: Id, newRevision: Id, data: Document)
    requires newRevision !in db.revisions
    ensures var (next, outcome) := CreateEditedRevision(db, base, newRevision, data);
            && (outcome == Committed <==> base in db.revisions && db.revisions[base].profileData.Some? && Completed(db.revisions[base].status))
            && (outcome != Committed ==> next == db)
            && (outcome == Committed ==>
                  && newRevision in next.revisions && next.revisions - {newRevision} == db.revisions && next.jobs == db.jobs
                  && next.revisions[newRevision].answers == db.revisions[base].answers
                  && next.revisions[newRevision].profileData == Some(data)
                  && (forall id :: id in db.revisions && db.revisions[id].profileId == next.revisions[newRevision].profileId ==>
                        db.revisions[id].number < next.revisions[newRevision].number)
                  && next.revisions[newRevision].profileId == db.revisions[base].profileId
                  && next.outbox == db.outbox + [Event(ReviewRequired, newRevision)]
                  && ApproveRevision(next, newRevision).1 == Committed)
  {
    var (next, outcome) := CreateEditedRevision(db, base, newRevision, data);
    if outcome == Committed {
      assert IsNext(db.revisions, db.revisions[base].profileId, next.revisions[newRevision].number);
      assert next.revisions - {newRevision} == db.revisions;
    }
    hide NextNumber, Supersede;
  }

  /** After an approval the profile's approved revision is this one and no other; the one approved before is
      superseded, and every other revision stays as it was. */
  lemma ApprovedIsTheOnlyOne(db: Db, revision: Id)
    requires ApproveRevision(db, revision).1 == Committed
    ensures var next := ApproveRevision(db, revision).0;
            var profile := db.revisions[revision].profileId;
            && next.revisions.Keys == db.revisions.Keys
            && (forall id :: id in next.revisions && next.revisions[id].profileId == profile ==>
                  (next.revisions[id].status == APPROVED <==> id == revision))
            && (forall id :: id in db.revisions && id != revision ==>
                  next.revisions[id] == if db.revisions[id].profileId == profile && db.revisions[id].status == APPROVED
                                        then db.revisions[id].(status := SUPERSEDED) else db.revisions[id])
            && next.outbox == db.outbox + [Event(ProfileApproved, revision)]
  {
  }

  class BrandDatabase {
    var workspaces: map<Id, bool>
    var profiles: map<Id, Id>
    var revisions: map<Id, Revision>
    var jobs: map<Id, Job>
    var outbox: seq<Event>

    function Contents(): Db
      reads this
    {
      Db(workspaces, profiles, revisions, jobs, outbox)
    }

    constructor ()
      ensures Contents() == Db(map[], map[], map[], map[], [])
    {
      workspaces, profiles, revisions, jobs, outbox := map[], map[], map[], map[], [];
    }

    /** `SELECT MAX`: the greatest number of the profile's revisions, plus one. */
    method SelectNext(profile: Id) returns (n: nat)
      ensures n == NextNumber(revisions, profile)
    {
      n := 1;
      var rest := revisions.Keys;
      while rest != {}
        invariant rest <= revisions.Keys
        invariant forall id :: id in revisions && id !in rest && revisions[id].profileId == profile ==> revisions[id].number < n
        invariant n >= 1
        invariant n > 1 ==> exists id :: id in revisions && revisions[id].profileId == profile && revisions[id].number == n - 1
        decreases |rest|
      {
        var id :| id in rest;
        if revisions[id].profileId == profile && revisions[id].number >= n { n := revisions[id].number + 1; }
        rest := rest - {id};
      }
      NextIsUnique(revisions, profile, n);
    }

    method InsertRevision(workspace: Id, key: string, answers: Document, newProfile: Id, newRevision: Id, newJob: Id, now: int)
      returns (outcome: Outcome, revision: Id)
      modifies this
      ensures (Contents(), outcome) == CreateRevision(old(Contents()), workspace, key, answers, newProfile, newRevision, newJob, now)
      ensures outcome == Committed ==>
        SameSubmission(Contents(), revision, ProfileOf(old(Contents()), workspace, newProfile), key)
      ensures outcome == Committed && revisions != old(revisions) ==> revision == newRevision
    {
      if workspace !in workspaces { return NotFound, ""; }
      if !workspaces[workspace] { return Conflict, ""; }
      var profile := if workspace in profiles then profiles[workspace] else newProfile;
      profiles := profiles[workspace := profile];
      var existing := set id | id in revisions && revisions[id].profileId == profile
                               && revisions[id].onboardingKey == Some(key) && HasJob(jobs, id);
      if existing != {} {
        var id :| id in existing;
        assert SameSubmission(old(Contents()), id, profile, key);
        return Committed, id;
      }
      assert forall id :: SameSubmission(old(Contents()), id, profile, key) ==> id in existing;
      var number := SelectNext(profile);
      revisions := revisions[newRevision := Revision(profile, number, GENERATING, answers, None, None, Some(key))];
      jobs := jobs[newJob := Job(newRevision, Enqueued(now))];
      outbox := outbox + [Event(GenerationRequested, newRevision)];
      assert jobs[newJob].revisionId == newRevision;
      return Committed, newRevision;
    }

    method InsertEditedRevision(base: Id, newRevision: Id, data: Document) returns (outcome: Outcome)
      modifies this
      ensures (Contents(), outcome) == CreateEditedRevision(old(Contents()), base, newRevision, data)
    {
      if base !in revisions { return NotFound; }
      if revisions[base].profileData.None? || revisions[base].status !in {REVIEW_REQUIRED, APPROVED, SUPERSEDED} { return Conflict; }
      var number := SelectNext(revisions[base].profileId);
      revisions := revisions[newRevision :=
        Revision(revisions[base].profileId, number, REVIEW_REQUIRED, revisions[base].answers, Some(data), None, None)];
      outbox := outbox + [Event(ReviewRequired, newRevision)];
      return Committed;
    }

    method CompleteRevision(revision: Id, data: Document) returns (outcome: Outcome)
      modifies this
      ensures (Contents(), outcome) == CompleteGeneration(old(Contents()), revision, data)
    {
      if revision !in revisions { return NotFound; }
      if revisions[revision].status != GENERATING { return Conflict; }
      revisions := revisions[revision := revisions[revision].(status := REVIEW_REQUIRED, profileData := Some(data))];
      CloseKeepsOwners(jobs, revision, SUCCEEDED, None);
      jobs := CloseJobsOf(jobs, revision, SUCCEEDED, None);
      outbox := outbox + if HasJob(jobs, revision) then [Event(ReviewRequired, revision)] else [];
      return Committed;
    }

    method FailRevision(revision: Id, code: string) returns (outcome: Outcome)
      modifies this
      ensures (Contents(), outcome) == FailGeneration(old(Contents()), revision, code)
    {
      if !(revision in revisions && revisions[revision].status == GENERATING) { return Conflict; }
      revisions := revisions[revision := revisions[revision].(status := GENERATION_FAILED, failureCode := Some(code))];
      jobs := CloseJobsOf(jobs, revision, FAILED, Some(code));
      return Committed;
    }

    method Approve(revision: Id) returns (outcome: Outcome)
      modifies this
      ensures (Contents(), outcome) == ApproveRevision(old(Contents()), revision)
    {
      if revision !in revisions { return NotFound; }
      if revisions[revision].status != REVIEW_REQUIRED { return Conflict; }
      var profile := revisions[revision].profileId;
      revisions := Supersede(revisions, profile);
      revisions := revisions[revision := revisions[revision].(status := APPROVED)];
      outbox := outbox + [Event(ProfileApproved, revision)];
      return Committed;
    }

    /** `FOR UPDATE SKIP LOCKED LIMIT 1` takes some claimable row; which one is left open. */
    method ClaimOne(worker: WorkerId, now: int, cfg: Config) returns (claimed: Option<Id>)
      modifies this
      ensures claimed.None? ==> Contents() == old(Contents()) && forall j :: j in jobs ==> !CanClaim(Contents(), j, now, cfg)
      ensures claimed.Some? ==>
        && CanClaim(old(Contents()), claimed.value, now, cfg)
        && Contents() == Claim(old(Contents()), claimed.value, worker, now, cfg)
    {
      var candidates := set j | j in jobs && Claimable(jobs[j].row, now, cfg.maxAttempts);
      if candidates == {} {
        assert forall j :: j in jobs && Claimable(jobs[j].row, now, cfg.maxAttempts) ==> j in candidates;
        return None;
      }
      var j :| j in candidates;
      jobs := jobs[j := jobs[j].(row := Claimed(jobs[j].row, worker, now, cfg.leaseMs, true))];
      return Some(j);
    }

    method Extend(job: Id, worker: WorkerId, now: int, cfg: Config) returns (ok: bool)
      modifies this
      ensures (Contents(), ok) == ExtendLease(old(Contents()), job, worker, now, cfg)
    {
      ok := job in jobs && jobs[job].row.status == RUNNING && jobs[job].row.lockedBy == Some(worker)
            && jobs[job].row.leaseExpiresAt.Some? && jobs[job].row.leaseExpiresAt.value > now;
      if ok { jobs := jobs[job := jobs[job].(row := jobs[job].row.(leaseExpiresAt := Some(now + cfg.leaseMs)))]; }
    }

    method Requeue(job: Id, worker: WorkerId, now: int, delayMs: int, error: string) returns (ok: bool)
      modifies this
      ensures (Contents(), ok) == Retry(old(Contents()), job, worker, now + delayMs, error)
    {
      ok := job in jobs && jobs[job].row.status == RUNNING && jobs[job].row.lockedBy == Some(worker);
      if ok { jobs := jobs[job := jobs[job].(row := Requeued(jobs[job].row, now + delayMs, error))]; }
    }

    method AckSuccess(job: Id, worker: WorkerId) returns (ok: bool)
      modifies this
      ensures (Contents(), ok) == AcknowledgeSuccess(old(Contents()), job, worker)
    {
      ok := job in jobs && (jobs[job].row.status == SUCCEEDED
                            || (jobs[job].row.status == RUNNING && jobs[job].row.lockedBy == Some(worker)));
      if ok { jobs := jobs[job := jobs[job].(row := Closed(jobs[job].row, SUCCEEDED, jobs[job].row.lastError))]; }
    }

    method AckFailure(job: Id, worker: WorkerId, error: string) returns (ok: bool)
      modifies this
      ensures (Contents(), ok) == AcknowledgeFailure(old(Contents()), job, worker, error)
    {
      ok := job in jobs && (jobs[job].row.status == FAILED
                            || (jobs[job].row.status == RUNNING && jobs[job].row.lockedBy == Some(worker)));
      if ok { jobs := jobs[job := jobs[job].(row := Closed(jobs[job].row, FAILED, Some(error)))]; }
    }
  }
}
