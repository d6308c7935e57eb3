/**
 What the revision tables hold after any run of `GenerationProtocol`: numbering, approval and idempotent
 submission over the database (src/brand/postgres-store.ts:99-340).
 */
module GenerationHistory {
  import opened Lease
  import opened GenerationDatabase
  import opened GenerationProtocol

  ghost predicate SameNumber(a: Revision, b: Revision) { a.profileId == b.profileId && a.number == b.number }

  ghost predicate HasNumber(revisions: map<Id, Revision>, profile: Id, n: nat) {
    exists r :: r in revisions && revisions[r].profileId == profile && revisions[r].number == n
  }

  /** Per profile the numbers are distinct and without gaps from 1. */
  ghost predicate Numbered(revisions: map<Id, Revision>) {
    && (forall r, q :: r in revisions && q in revisions && SameNumber(revisions[r], revisions[q]) ==> r == q)
    && (forall r :: r in revisions ==> revisions[r].number >= 1)
    && (forall r :: r in revisions && revisions[r].number > 1 ==> HasNumber(revisions, revisions[r].profileId, revisions[r].number - 1))
  }

  ghost predicate BothApproved(a: Revision, b: Revision) {
    a.profileId == b.profileId && a.status == APPROVED && b.status == APPROVED
  }

  ghost predicate OneApprovedEach(revisions: map<Id, Revision>) {
    forall r, q :: r in revisions && q in revisions && BothApproved(revisions[r], revisions[q]) ==> r == q
  }

  ghost predicate SameKey(a: Revision, b: Revision) {
    a.profileId == b.profileId && a.onboardingKey.Some? && a.onboardingKey == b.onboardingKey
  }

  /** A key of a profile made one revision, and that revision still has its job. */
  ghost predicate KeysOnce(db: Db) {
    && (forall r, q :: r in db.revisions && q in db.revisions && SameKey(db.revisions[r], db.revisions[q]) ==> r == q)
    && (forall r :: r in db.revisions && db.revisions[r].onboardingKey.Some? ==> HasJob(db.jobs, r))
  }

  ghost predicate HistoryOk(db: Db) { Numbered(db.revisions) && OneApprovedEach(db.revisions) && KeysOnce(db) }

  // ---- one step ----

  /** The revision the action inserts, if it inserts one. */
  ghost predicate Inserts(w: World, next: World, a: Action, r: Id) {
    && r !in w.db.revisions && r in next.db.revisions
    && next.db.revisions[r].number == NextNumber(w.db.revisions, next.db.revisions[r].profileId)
    && next.db.revisions[r].status != APPROVED
    && (next.db.revisions[r].onboardingKey.Some? ==>
          && a.Submit? && next.db.revisions[r].onboardingKey == Some(a.key)
          && !Submitted(w.db, next.db.revisions[r].profileId, a.key)
          && HasJob(next.db.jobs, r))
  }

  lemma SubmitInserts(cfg: Config, w: World, a: Action, r: Id)
    requires a.Submit? && r !in w.db.revisions && r in Apply(cfg, w, a).db.revisions
    ensures Inserts(w, Apply(cfg, w, a), a, r) && r == a.newRevision
  {
    var next := Apply(cfg, w, a);
    hide NextNumber, Submitted;
    assert next.db.jobs[a.newJob].revisionId == r;
  }

  lemma EditInserts(cfg: Config, w: World, a: Action, r: Id)
    requires a.Edit? && r !in w.db.revisions && r in Apply(cfg, w, a).db.revisions
    ensures Inserts(w, Apply(cfg, w, a), a, r) && r == a.newRevision
  {
    hide NextNumber, Submitted;
  }

  /** Only submissions and edits insert. */
  lemma OthersInsertNothing(cfg: Config, w: World, a: Action)
    requires !a.Submit? && !a.Edit?
    ensures Apply(cfg, w, a).db.revisions.Keys == w.db.revisions.Keys
  {
    hide OnError, CloseJobsOf, HasJob, ExtendLease, Retry, AcknowledgeSuccess, AcknowledgeFailure, Claim;
    StatementsKeepRevisions(w.db);
  }

  /** The queue's statements do not touch revisions. */
  lemma StatementsKeepRevisions(db: Db)
    ensures forall job, worker, now: int, cfg :: ExtendLease(db, job, worker, now, cfg).0.revisions == db.revisions
    ensures forall job, worker, at: int, error :: Retry(db, job, worker, at, error).0.revisions == db.revisions
    ensures forall job, worker :: AcknowledgeSuccess(db, job, worker).0.revisions == db.revisions
    ensures forall job, worker, error :: AcknowledgeFailure(db, job, worker, error).0.revisions == db.revisions
    ensures forall job, worker, now: int, cfg :: CanClaim(db, job, now, cfg) ==> Claim(db, job, worker, now, cfg).revisions == db.revisions
  {
  }

  lemma InsertionIs(cfg: Config, w: World, a: Action, r: Id)
    requires r !in w.db.revisions && r in Apply(cfg, w, a).db.revisions
    ensures Inserts(w, Apply(cfg, w, a), a, r) && (a.Submit? || a.Edit?) && r == a.newRevision
  {
    hide Apply, Inserts;
    if a.Submit? { SubmitInserts(cfg, w, a, r); } else if a.Edit? { EditInserts(cfg, w, a, r); } else { OthersInsertNothing(cfg, w, a); }
  }

  /** An inserted revision's number is above those of its profile, and right after the last of them. */
  lemma InsertedNumber(w: World, next: World, a: Action, r: Id)
    requires Inserts(w, next, a, r)
    ensures next.db.revisions[r].number >= 1
    ensures forall q :: q in w.db.revisions && w.db.revisions[q].profileId == next.db.revisions[r].profileId ==>
              w.db.revisions[q].number < next.db.revisions[r].number
    ensures next.db.revisions[r].number > 1 ==> HasNumber(w.db.revisions, next.db.revisions[r].profileId, next.db.revisions[r].number - 1)
  {
    assert IsNext(w.db.revisions, next.db.revisions[r].profileId, next.db.revisions[r].number);
    hide NextNumber, Submitted, HasJob;
  }

  lemma NumberStays(revisions: map<Id, Revision>, next: map<Id, Revision>, profile: Id, n: nat)
    requires HasNumber(revisions, profile, n)
    requires forall r :: r in revisions ==> r in next && SameNumber(revisions[r], next[r])
    ensures HasNumber(next, profile, n)
  {
    var r :| r in revisions && revisions[r].profileId == profile && revisions[r].number == n;
    assert SameNumber(revisions[r], next[r]);
  }

  lemma NumberedStep(w: World, next: World, a: Action, inserted: Option<Id>)
    requires Numbered(w.db.revisions) && RevisionsKeep(w.db, next.db)
    requires forall r :: r in next.db.revisions && r !in w.db.revisions ==> inserted == Some(r) && Inserts(w, next, a, r)
    ensures Numbered(next.db.revisions)
  {
    var before, after := w.db.revisions, next.db.revisions;
    assert forall r :: r in before ==> r in after && SameNumber(before[r], after[r]);
    hide RevisionsKeep, Inserts, HasNumber;
    forall r | r in after ensures after[r].number >= 1 && (after[r].number > 1 ==> HasNumber(after, after[r].profileId, after[r].number - 1)) {
      if r !in before { InsertedNumber(w, next, a, r); }
      if after[r].number > 1 { NumberStays(before, after, after[r].profileId, after[r].number - 1); }
    }
    forall r, q | r in after && q in after && SameNumber(after[r], after[q]) ensures r == q {
      if r !in before { InsertedNumber(w, next, a, r); }
      if q !in before { InsertedNumber(w, next, a, q); }
      if r in before && q in before { assert SameNumber(before[r], before[q]); }
    }
  }

  lemma ApprovedStep(cfg: Config, w: World, a: Action)
    requires OneApprovedEach(w.db.revisions) && RevisionsKeep(w.db, Apply(cfg, w, a).db)
    ensures OneApprovedEach(Apply(cfg, w, a).db.revisions)
  {
    var next := Apply(cfg, w, a);
    if a.Approve? && ApproveRevision(w.db, a.revision).1 == Committed {
      ApprovedIsTheOnlyOne(w.db, a.revision);
      hide ApproveRevision;
    } else {
      forall r | r in next.db.revisions && next.db.revisions[r].status == APPROVED
        ensures r in w.db.revisions && w.db.revisions[r].status == APPROVED
      {
        if r !in w.db.revisions { InsertionIs(cfg, w, a, r); } else { OnlyApprovalApproves(cfg, w, a, r); }
      }
      hide Apply, StatusKeeps;
    }
  }

  lemma OnlyApprovalApproves(cfg: Config, w: World, a: Action, r: Id)
    requires r in w.db.revisions && r in Apply(cfg, w, a).db.revisions && Apply(cfg, w, a).db.revisions[r].status == APPROVED
    requires a.Approve? ==> ApproveRevision(w.db, a.revision).1 != Committed
    ensures w.db.revisions[r].status == APPROVED
  {
    hide OnError, CloseJobsOf, HasJob, NextNumber, ExtendLease, Retry, AcknowledgeSuccess, AcknowledgeFailure, Claim;
    StatementsKeepRevisions(w.db);
  }

  /** No job is ever removed or moved to another revision. */
  ghost predicate JobsStay(jobs: map<Id, Job>, next: map<Id, Job>) {
    forall j :: j in jobs ==> j in next && next[j].revisionId == jobs[j].revisionId
  }

  lemma StatementsKeepJobs(db: Db)
    ensures forall job, worker, now: int, cfg :: JobsStay(db.jobs, ExtendLease(db, job, worker, now, cfg).0.jobs)
    ensures forall job, worker, at: int, error :: JobsStay(db.jobs, Retry(db, job, worker, at, error).0.jobs)
    ensures forall job, worker :: JobsStay(db.jobs, AcknowledgeSuccess(db, job, worker).0.jobs)
    ensures forall job, worker, error :: JobsStay(db.jobs, AcknowledgeFailure(db, job, worker, error).0.jobs)
    ensures forall job, worker, now: int, cfg :: CanClaim(db, job, now, cfg) ==> JobsStay(db.jobs, Claim(db, job, worker, now, cfg).jobs)
    ensures forall revision, status, error :: JobsStay(db.jobs, CloseJobsOf(db.jobs, revision, status, error))
  {
  }

  lemma JobsStep(cfg: Config, w: World, a: Action)
    ensures JobsStay(w.db.jobs, Apply(cfg, w, a).db.jobs)
  {
    StatementsKeepJobs(w.db);
    assert JobsStay(w.db.jobs, w.db.jobs);
    hide OnError, CloseJobsOf, HasJob, NextNumber, ExtendLease, Retry, AcknowledgeSuccess, AcknowledgeFailure, Claim, Submitted;
  }

  lemma HasJobStays(jobs: map<Id, Job>, next: map<Id, Job>, r: Id)
    requires JobsStay(jobs, next) && HasJob(jobs, r)
    ensures HasJob(next, r)
  {
    var j :| j in jobs && jobs[j].revisionId == r;
    assert next[j].revisionId == r;
  }

  lemma KeysStep(w: World, next: World, a: Action, inserted: Option<Id>)
    requires KeysOnce(w.db) && RevisionsKeep(w.db, next.db) && JobsStay(w.db.jobs, next.db.jobs)
    requires forall r :: r in next.db.revisions && r !in w.db.revisions ==> inserted == Some(r) && Inserts(w, next, a, r)
    ensures KeysOnce(next.db)
  {
    forall r | r in next.db.revisions && next.db.revisions[r].onboardingKey.Some? ensures HasJob(next.db.jobs, r) {
      if r in w.db.revisions { HasJobStays(w.db.jobs, next.db.jobs, r); }
    }
    forall r, q | r in next.db.revisions && q in next.db.revisions && SameKey(next.db.revisions[r], next.db.revisions[q]) ensures r == q {
      if r in w.db.revisions && q !in w.db.revisions { KeyIsNew(w, next, a, r, q); }
      if q in w.db.revisions && r !in w.db.revisions { KeyIsNew(w, next, a, q, r); }
    }
    hide HasJob;
  }

  lemma KeySubmitted(db: Db, r: Id, key: string)
    requires KeysOnce(db) && r in db.revisions && db.revisions[r].onboardingKey == Some(key)
    ensures Submitted(db, db.revisions[r].profileId, key)
  {
    var j :| j in db.jobs && db.jobs[j].revisionId == r;
    assert SameSubmission(db, r, db.revisions[r].profileId, key);
  }

  /** An inserted revision has a key that no earlier revision of the profile has. */
  lemma KeyIsNew(w: World, next: World, a: Action, earlier: Id, inserted: Id)
    requires KeysOnce(w.db) && RevisionsKeep(w.db, next.db) && earlier in w.db.revisions && Inserts(w, next, a, inserted)
    ensures !SameKey(next.db.revisions[earlier], next.db.revisions[inserted])
  {
    hide KeysOnce, Submitted, HasJob;
    if w.db.revisions[earlier].onboardingKey.Some? { KeySubmitted(w.db, earlier, w.db.revisions[earlier].onboardingKey.value); }
  }

  lemma StepHistory(cfg: Config, w: World, a: Action)
    requires Inv(cfg, w) && cfg.maxAttempts > 0 && HistoryOk(w.db)
    ensures HistoryOk(Apply(cfg, w, a).db)
  {
    var next := Apply(cfg, w, a);
    ApplyOk(cfg, w, a);
    hide Inv, Apply, Inserts, RevisionsKeep, Numbered, OneApprovedEach, KeysOnce;
    forall r | r in next.db.revisions && r !in w.db.revisions
      ensures Inserts(w, next, a, r) && (a.Submit? || a.Edit?) && r == a.newRevision
    {
      InsertionIs(cfg, w, a, r);
    }
    var inserted := if a.Submit? || a.Edit? then Some(a.newRevision) else None;
    NumberedStep(w, next, a, inserted);
    ApprovedStep(cfg, w, a);
    JobsStep(cfg, w, a);
    KeysStep(w, next, a, inserted);
  }

  lemma {:induction false} RunHistory(cfg: Config, actions: seq<Action>)
    requires cfg.maxAttempts > 0
    ensures HistoryOk(Run(cfg, actions).db)
  {
    if actions != [] {
      RunHistory(cfg, actions[..|actions| - 1]);
      RunOk(cfg, actions[..|actions| - 1]);
      hide Inv, HistoryOk;
      StepHistory(cfg, Run(cfg, actions[..|actions| - 1]), actions[|actions| - 1]);
    }
  }

  // ---- what holds of every run ----

  lemma {:induction false} NoGap(revisions: map<Id, Revision>, profile: Id, n: nat, m: nat)
    requires Numbered(revisions) && 1 <= m <= n && HasNumber(revisions, profile, n)
    ensures HasNumber(revisions, profile, m)
    decreases n
  {
    if m < n {
      var r :| r in revisions && revisions[r].profileId == profile && revisions[r].number == n;
      NoGap(revisions, profile, n - 1, m);
    }
  }

  /** In every run the revisions of a profile carry exactly the numbers from 1 to the last, each once, whether
      they were submitted or edited and however the submissions interleave. */
  lemma RevisionsAreNumbered(cfg: Config, actions: seq<Action>, profile: Id, n: nat)
    requires cfg.maxAttempts > 0
    ensures var revisions := Run(cfg, actions).db.revisions;
            && ((exists r :: r in revisions && revisions[r].profileId == profile && revisions[r].number == n)
                <==> 1 <= n < NextNumber(revisions, profile))
            && (forall r, q :: r in revisions && q in revisions && SameNumber(revisions[r], revisions[q]) ==> r == q)
  {
    RunHistory(cfg, actions);
    var revisions := Run(cfg, actions).db.revisions;
    hide Run;
    var last := NextNumber(revisions, profile);
    assert IsNext(revisions, profile, last);
    if 1 <= n < last {
      assert HasNumber(revisions, profile, last - 1);
      NoGap(revisions, profile, last - 1, n);
    }
  }

  /** In every run a profile has at most one approved revision. */
  lemma OneApprovedRevision(cfg: Config, actions: seq<Action>, r: Id, q: Id)
    requires cfg.maxAttempts > 0
    requires var revisions := Run(cfg, actions).db.revisions;
             && r in revisions && q in revisions && revisions[r].profileId == revisions[q].profileId
             && revisions[r].status == APPROVED && revisions[q].status == APPROVED
    ensures r == q
  {
    RunHistory(cfg, actions);
  }

  /** Submitting again with a key the profile has already used, any time later and whatever else it says, inserts
      nothing; and no two revisions of a profile have one key. */
  lemma ResubmissionAddsNothing(cfg: Config, actions: seq<Action>, r: Id, a: Action)
    requires cfg.maxAttempts > 0 && a.Submit?
    requires var db := Run(cfg, actions).db;
             && r in db.revisions && a.workspace in db.profiles && db.profiles[a.workspace] == db.revisions[r].profileId
             && db.revisions[r].onboardingKey == Some(a.key)
    ensures var db, next := Run(cfg, actions).db, Run(cfg, actions + [a]).db;
            && next.revisions == db.revisions && next.jobs == db.jobs && next.outbox == db.outbox
            && (forall q :: q in db.revisions && q != r && db.revisions[q].profileId == db.revisions[r].profileId ==>
                  db.revisions[q].onboardingKey != Some(a.key))
  {
    RunHistory(cfg, actions);
    assert (actions + [a])[..|actions|] == actions;
    var db := Run(cfg, actions).db;
    assert Run(cfg, actions + [a]) == Apply(cfg, Run(cfg, actions), a);
    hide Run, NextNumber;
    assert HasJob(db.jobs, r);
    var j :| j in db.jobs && db.jobs[j].revisionId == r;
    assert SameSubmission(db, r, db.revisions[r].profileId, a.key);
    forall q | q in db.revisions && q != r && db.revisions[q].profileId == db.revisions[r].profileId
      ensures db.revisions[q].onboardingKey != Some(a.key)
    {
      assert !SameKey(db.revisions[r], db.revisions[q]);
    }
  }
}
