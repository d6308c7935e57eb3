/**
 What each operation of the brand profile store does to the revisions, in every run (src/brand/memory-store.ts:22-153):
 the operations found by id, revision by revision and with all they store.
 */
module BrandOperations {
  import opened BrandStore
  import opened BrandHistory

  ghost predicate Known(rs: seq<Revision>, id: Id) { exists i :: 0 <= i < |rs| && rs[i].id == id }

  ghost predicate InStatus(rs: seq<Revision>, id: Id, status: Status) {
    exists i :: 0 <= i < |rs| && rs[i].id == id && rs[i].status == status
  }

  lemma PlaceOf(ops: seq<Op>, id: Id)
    requires IsRun(ops)
    ensures var rs := After(ops).revisions;
            && (Position(rs, id) < |rs| <==> Known(rs, id))
            && (forall i :: 0 <= i < |rs| && rs[i].id == id ==> i == Position(rs, id))
  {
    Reachable(ops);
    hide After, IsRun, PriorResults, ApprovedIsLast, EventsNameRevisions, Numbered, OneProfileEach;
    var rs := After(ops).revisions;
    if Known(rs, id) { var i :| 0 <= i < |rs| && rs[i].id == id; }
  }

  /** A result is refused for an unknown revision and for one that is not generating, and then nothing happens.
      Otherwise that revision alone changes: it is up for review, with the result and what made it, and announced. */
  lemma CompletedExactly(ops: seq<Op>, id: Id, data: string, prompt: string, model: string)
    requires IsRun(ops)
    ensures var s := After(ops);
            var (t, r) := CompleteGeneration(s, id, data, prompt, model);
            && (r.NotFound? <==> !Known(s.revisions, id)) && (r.Done? <==> InStatus(s.revisions, id, Generating))
            && (!r.Done? ==> t == s)
            && (r.Done? ==>
                  && t.workspaces == s.workspaces && t.requests == s.requests && t.outbox == s.outbox + [Event(ReviewRequiredTopic, id)]
                  && |t.revisions| == |s.revisions|
                  && (forall i :: 0 <= i < |s.revisions| ==>
                        t.revisions[i] ==
                        if s.revisions[i].id == id
                        then s.revisions[i].(status := ReviewRequired, profileData := Some(data), promptVersion := Some(prompt), model := Some(model))
                        else s.revisions[i])
                  && r.value in t.revisions && r.value.id == id)
  {
    PlaceOf(ops, id);
    hide After, IsRun, Position;
    var s := After(ops);
    var (t, r) := CompleteGeneration(s, id, data, prompt, model);
    if r.Done? { assert t.revisions[Position(s.revisions, id)] == r.value; }
  }

  /** A failure is refused likewise; otherwise that revision alone has failed, with the code, and nothing is announced. */
  lemma FailedExactly(ops: seq<Op>, id: Id, code: string)
    requires IsRun(ops)
    ensures var s := After(ops);
            var (t, r) := FailGeneration(s, id, code);
            && (r.NotFound? <==> !Known(s.revisions, id)) && (r.Done? <==> InStatus(s.revisions, id, Generating))
            && (!r.Done? ==> t == s)
            && (r.Done? ==>
                  && t.workspaces == s.workspaces && t.requests == s.requests && t.outbox == s.outbox && |t.revisions| == |s.revisions|
                  && (forall i :: 0 <= i < |s.revisions| ==>
                        t.revisions[i] ==
                        if s.revisions[i].id == id then s.revisions[i].(status := GenerationFailed, failureCode := Some(code)) else s.revisions[i])
                  && r.value in t.revisions && r.value.id == id)
  {
    PlaceOf(ops, id);
    hide After, IsRun, Position;
    var s := After(ops);
    var (t, r) := FailGeneration(s, id, code);
    if r.Done? { assert t.revisions[Position(s.revisions, id)] == r.value; }
  }

  ghost predicate SameProfile(rs: seq<Revision>, id: Id, r: Revision) {
    exists i :: 0 <= i < |rs| && rs[i].id == id && rs[i].brandProfileId == r.brandProfileId
  }

  /** An approval is refused unless the revision is up for review. Otherwise it is approved by that actor, whatever was
      approved in its profile is superseded, and everything else stays. */
  lemma ApprovedExactly(ops: seq<Op>, id: Id, actor: string)
    requires IsRun(ops)
    ensures var s := After(ops);
            var (t, r) := ApproveRevision(s, id, actor);
            && (r.NotFound? <==> !Known(s.revisions, id)) && (r.Done? <==> InStatus(s.revisions, id, ReviewRequired))
            && (!r.Done? ==> t == s)
            && (r.Done? ==>
                  && t.workspaces == s.workspaces && t.requests == s.requests && t.outbox == s.outbox + [Event(ApprovedTopic, id)]
                  && |t.revisions| == |s.revisions|
                  && (forall i :: 0 <= i < |s.revisions| ==>
                        t.revisions[i] ==
                        if s.revisions[i].id == id then s.revisions[i].(status := Approved, approvedBy := Some(actor))
                        else if s.revisions[i].status == Approved && SameProfile(s.revisions, id, s.revisions[i])
                        then s.revisions[i].(status := Superseded)
                        else s.revisions[i])
                  && r.value in t.revisions && r.value.id == id)
  {
    PlaceOf(ops, id);
    hide After, IsRun, Position;
    var s := After(ops);
    var (t, r) := ApproveRevision(s, id, actor);
    if r.Done? {
      var n := Position(s.revisions, id);
      assert t.revisions[n] == r.value;
      forall i | 0 <= i < |s.revisions| ensures SameProfile(s.revisions, id, s.revisions[i]) <==> s.revisions[i].brandProfileId == s.revisions[n].brandProfileId {
        if s.revisions[i].brandProfileId == s.revisions[n].brandProfileId { assert s.revisions[n].id == id; }
      }
    }
  }

  /** An edit is refused unless its base has a result and is up for review, approved or superseded. Otherwise one revision
      is added: the base's workspace, profile and answers, the edited result, by that actor, up for review and announced. */
  lemma EditedExactly(ops: seq<Op>, base: Id, data: string, actor: string, id: Id)
    requires IsRun(ops)
    ensures var s := After(ops);
            var (t, r) := CreateEditedRevision(s, base, data, actor, id);
            && (r.NotFound? <==> !Known(s.revisions, base))
            && (r.Done? <==> exists i :: 0 <= i < |s.revisions| && s.revisions[i].id == base && s.revisions[i].profileData.Some?
                               && s.revisions[i].status in {ReviewRequired, Approved, Superseded})
            && (!r.Done? ==> t == s)
            && (r.Done? ==>
                  && t.workspaces == s.workspaces && t.requests == s.requests && t.outbox == s.outbox + [Event(ReviewRequiredTopic, id)]
                  && t.revisions == s.revisions + [r.value]
                  && (forall i :: 0 <= i < |s.revisions| && s.revisions[i].id == base ==>
                        r.value == Revision(id, s.revisions[i].workspaceId, s.revisions[i].brandProfileId, r.value.revision, ReviewRequired,
                                            s.revisions[i].answers, Some(data), Some("editor.v1"), Some("manual"), None, actor, None)))
  {
    PlaceOf(ops, base);
    hide After, IsRun, Position, MaxRevision;
  }

  /** A submission is refused for an unknown workspace and answered from memory for a known key, and then nothing happens.
      Otherwise one revision is added: of the workspace's profile, or of a new one if it has none, with the answers and no
      result, generating and announced; its job carries the correlation id, and the result is remembered under the key. */
  lemma SubmittedExactly(ops: seq<Op>, workspaceId: Id, answers: string, actor: string, correlationId: string, id: Id, profile: Id, job: Id)
    requires IsRun(ops)
    ensures var s, key := After(ops), workspaceId + ":" + correlationId;
            var (t, r) := CreateRevision(s, workspaceId, answers, actor, correlationId, id, profile, job);
            && !r.Conflict? && (r.NotFound? <==> workspaceId !in s.workspaces)
            && (r.Done? && key in s.requests ==> r.value == s.requests[key])
            && (r.NotFound? || key in s.requests ==> t == s)
            && (r.Done? && key !in s.requests ==>
                  var added := r.value.revision;
                  && t.workspaces == s.workspaces && t.requests == s.requests[key := r.value]
                  && t.outbox == s.outbox + [Event(GenerationRequested, id)] && t.revisions == s.revisions + [added]
                  && added == Revision(id, workspaceId, added.brandProfileId, added.revision, Generating, answers, None, None, None, None, actor, None)
                  && (forall i :: 0 <= i < |s.revisions| && s.revisions[i].workspaceId == workspaceId ==>
                        s.revisions[i].brandProfileId == added.brandProfileId)
                  && ((forall i :: 0 <= i < |s.revisions| ==> s.revisions[i].workspaceId != workspaceId) ==> added.brandProfileId == profile)
                  && r.value.job == Job(job, id, correlationId))
  {
    Reachable(ops);
    FirstOfWorkspace(After(ops).revisions, workspaceId);
    hide After, IsRun, PriorResults, ApprovedIsLast, EventsNameRevisions, Numbered, UniqueIds, MaxRevision, FirstProfile;
  }

  lemma {:induction false} FirstOfWorkspace(rs: seq<Revision>, workspaceId: Id)
    ensures FirstProfile(rs, workspaceId).None? <==> forall i :: 0 <= i < |rs| ==> rs[i].workspaceId != workspaceId
    ensures FirstProfile(rs, workspaceId).Some? ==>
              exists i :: 0 <= i < |rs| && rs[i].workspaceId == workspaceId && rs[i].brandProfileId == FirstProfile(rs, workspaceId).value
  {
    if rs != [] {
      FirstOfWorkspace(rs[1..], workspaceId);
      forall i | 0 < i < |rs| ensures rs[i] == rs[1..][i - 1] {}
    }
  }
}
