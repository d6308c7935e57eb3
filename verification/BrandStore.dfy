/**
 The in-memory brand profile store (src/brand/memory-store.ts): revision numbering, supersession and
 idempotent submission. New ids are arguments; timestamps are left out.
 */
module BrandStore {

  type Id = string

  datatype Status = Generating | ReviewRequired | Approved | Superseded | GenerationFailed

  datatype Option<T> = None | Some(value: T)

  datatype Revision = Revision(
    id: Id, workspaceId: Id, brandProfileId: Id, revision: nat, status: Status,
    answers: string, profileData: Option<string>, promptVersion: Option<string>, model: Option<string>,
    failureCode: Option<string>, createdBy: string, approvedBy: Option<string>)

  datatype Job = Job(id: Id, revisionId: Id, correlationId: string)

  datatype NewRevisionResult = NewRevisionResult(revision: Revision, job: Job)

  datatype Topic = GenerationRequested | ReviewRequiredTopic | ApprovedTopic

  datatype Event = Event(topic: Topic, aggregateId: Id)

  datatype Outcome<T> = Done(value: T) | NotFound | Conflict

  /** The maps of the source in insertion order; setting an existing key keeps its place. */
  datatype State = State(workspaces: set<Id>, revisions: seq<Revision>, outbox: seq<Event>, requests: map<string, NewRevisionResult>)

  // ---- lookups ----

  datatype Scope = OfWorkspace(id: Id) | OfProfile(id: Id)

  predicate In(r: Revision, scope: Scope) {
    match scope
    case OfWorkspace(id) => r.workspaceId == id
    case OfProfile(id) => r.brandProfileId == id
  }

  function MaxRevision(rs: seq<Revision>, scope: Scope): nat {
    if rs == [] then 0
    else
      var before, last := MaxRevision(rs[..|rs| - 1], scope), rs[|rs| - 1];
      if In(last, scope) && last.revision > before then last.revision else before
  }

  /** The profile of the workspace's first revision. */
  function FirstProfile(rs: seq<Revision>, workspaceId: Id): Option<Id> {
    if rs == [] then None
    else if rs[0].workspaceId == workspaceId then Some(rs[0].brandProfileId)
    else FirstProfile(rs[1..], workspaceId)
  }

  /** The position of a revision, or the length when there is none. */
  function Position(rs: seq<Revision>, id: Id): (n: nat)
    ensures n <= |rs| && (n < |rs| ==> rs[n].id == id) && forall k :: 0 <= k < n ==> rs[k].id != id
  {
    if rs == [] || rs[0].id == id then 0 else 1 + Position(rs[1..], id)
  }

  function RequestKey(workspaceId: Id, correlationId: string): string { workspaceId + ":" + correlationId }

  // ---- the operations ----

  function CreateRevision(s: State, workspaceId: Id, answers: string, actorId: string, correlationId: string,
                          revisionId: Id, profileId: Id, jobId: Id): (State, Outcome<NewRevisionResult>)
  {
    var key := RequestKey(workspaceId, correlationId);
    if workspaceId !in s.workspaces then (s, NotFound)
    else if key in s.requests then (s, Done(s.requests[key]))
    else
      var first := FirstProfile(s.revisions, workspaceId);
      var revision := Revision(revisionId, workspaceId, if first.Some? then first.value else profileId,
                               MaxRevision(s.revisions, OfWorkspace(workspaceId)) + 1, Generating,
                               answers, None, None, None, None, actorId, None);
      var result := NewRevisionResult(revision, Job(jobId, revisionId, correlationId));
      (State(s.workspaces, s.revisions + [revision], s.outbox + [Event(GenerationRequested, revisionId)], s.requests[key := result]),
       Done(result))
  }

  function CreateEditedRevision(s: State, baseId: Id, profileData: string, actorId: string, revisionId: Id): (State, Outcome<Revision>) {
    var n := Position(s.revisions, baseId);
    if n == |s.revisions| then (s, NotFound)
    else
      var base := s.revisions[n];
      if base.profileData.None? || base.status !in {ReviewRequired, Approved, Superseded} then (s, Conflict)
      else
        var revision := base.(id := revisionId, revision := MaxRevision(s.revisions, OfProfile(base.brandProfileId)) + 1,
                              status := ReviewRequired, profileData := Some(profileData), promptVersion := Some("editor.v1"),
                              model := Some("manual"), failureCode := None, createdBy := actorId, approvedBy := None);
        (s.(revisions := s.revisions + [revision], outbox := s.outbox + [Event(ReviewRequiredTopic, revisionId)]), Done(revision))
  }

  function CompleteGeneration(s: State, id: Id, profileData: string, promptVersion: string, model: string): (State, Outcome<Revision>) {
    var n := Position(s.revisions, id);
    if n == |s.revisions| then (s, NotFound)
    else if s.revisions[n].status != Generating then (s, Conflict)
    else
      var updated := s.revisions[n].(status := ReviewRequired, profileData := Some(profileData),
                                     promptVersion := Some(promptVersion), model := Some(model));
      (s.(revisions := s.revisions[n := updated], outbox := s.outbox + [Event(ReviewRequiredTopic, id)]), Done(updated))
  }

  function FailGeneration(s: State, id: Id, failureCode: string): (State, Outcome<Revision>) {
    var n := Position(s.revisions, id);
    if n == |s.revisions| then (s, NotFound)
    else if s.revisions[n].status != Generating then (s, Conflict)
    else
      var updated := s.revisions[n].(status := GenerationFailed, failureCode := Some(failureCode));
      (s.(revisions := s.revisions[n := updated]), Done(updated))
  }

  function Retired(r: Revision, profileId: Id): Revision {
    if r.brandProfileId == profileId && r.status == Approved then r.(status := Superseded) else r
  }

  function RetireApproved(rs: seq<Revision>, profileId: Id): seq<Revision> {
    seq(|rs|, i requires 0 <= i < |rs| => Retired(rs[i], profileId))
  }

  function ApproveRevision(s: State, id: Id, actorId: string): (State, Outcome<Revision>) {
    var n := Position(s.revisions, id);
    if n == |s.revisions| then (s, NotFound)
    else if s.revisions[n].status != ReviewRequired then (s, Conflict)
    else
      var updated := s.revisions[n].(status := Approved, approvedBy := Some(actorId));
      (s.(revisions := RetireApproved(s.revisions, s.revisions[n].brandProfileId)[n := updated],
          outbox := s.outbox + [Event(ApprovedTopic, id)]),
       Done(updated))
  }

  // ---- the store ----

  class MemoryBrandProfileStore {
    var workspaces: set<Id>
    var revisions: seq<Revision>
    var outbox: seq<Event>
    var onboardingRequests: map<string, NewRevisionResult>

    constructor ()
      ensures Contents() == Empty()
    {
      workspaces, revisions, outbox, onboardingRequests := {}, [], [], map[];
    }

    ghost function Contents(): State reads this { State(workspaces, revisions, outbox, onboardingRequests) }

    method CreateWorkspace(id: Id)
      modifies this
      ensures Contents() == old(Contents()).(workspaces := old(workspaces) + {id})
    {
      workspaces := workspaces + {id};
    }

    method Submit(workspaceId: Id, answers: string, actorId: string, correlationId: string,
                  revisionId: Id, profileId: Id, jobId: Id) returns (r: Outcome<NewRevisionResult>)
      modifies this
      ensures (Contents(), r)
           == CreateRevision(old(Contents()), workspaceId, answers, actorId, correlationId, revisionId, profileId, jobId)
    {
      if workspaceId !in workspaces { return NotFound; }
      var requestKey := RequestKey(workspaceId, correlationId);
      if requestKey in onboardingRequests { return Done(onboardingRequests[requestKey]); }
      var max, first := Scan(workspaceId);
      var revision := Revision(revisionId, workspaceId, if first.Some? then first.value else profileId, max + 1, Generating,
                               answers, None, None, None, None, actorId, None);
      revisions := revisions + [revision];
      outbox := outbox + [Event(GenerationRequested, revisionId)];
      var result := NewRevisionResult(revision, Job(jobId, revisionId, correlationId));
      onboardingRequests := onboardingRequests[requestKey := result];
      return Done(result);
    }

    /** The highest number of the workspace's revisions and the profile of the first. */
    method Scan(workspaceId: Id) returns (max: nat, first: Option<Id>)
      ensures max == MaxRevision(revisions, OfWorkspace(workspaceId)) && first == FirstProfile(revisions, workspaceId)
    {
      max, first := 0, None;
      for i := 0 to |revisions|
        invariant max == MaxRevision(revisions[..i], OfWorkspace(workspaceId))
        invariant first.None? ==> FirstProfile(revisions, workspaceId) == FirstProfile(revisions[i..], workspaceId)
        invariant first.Some? ==> FirstProfile(revisions, workspaceId) == first
      {
        assert revisions[..i + 1][..i] == revisions[..i] && revisions[i..][1..] == revisions[i + 1..];
        var r := revisions[i];
        if r.workspaceId == workspaceId {
          if first.None? { first := Some(r.brandProfileId); }
          if r.revision > max { max := r.revision; }
        }
      }
      assert revisions[..|revisions|] == revisions;
    }

    method Find(id: Id) returns (n: nat)
      ensures n == Position(revisions, id)
    {
      n := 0;
      while n < |revisions| && revisions[n].id != id
        invariant n <= |revisions| && Position(revisions, id) == n + Position(revisions[n..], id)
      {
        assert revisions[n..][1..] == revisions[n + 1..];
        n := n + 1;
      }
    }

    method Edit(baseId: Id, profileData: string, actorId: string, revisionId: Id) returns (r: Outcome<Revision>)
      modifies this
      ensures (Contents(), r) == CreateEditedRevision(old(Contents()), baseId, profileData, actorId, revisionId)
    {
      var n := Find(baseId);
      if n == |revisions| { return NotFound; }
      var base := revisions[n];
      if base.profileData.None? || base.status !in {ReviewRequired, Approved, Superseded} { return Conflict; }
      var max := 0;
      for i := 0 to |revisions|
        invariant max == MaxRevision(revisions[..i], OfProfile(base.brandProfileId))
      {
        assert revisions[..i + 1][..i] == revisions[..i];
        if revisions[i].brandProfileId == base.brandProfileId && revisions[i].revision > max { max := revisions[i].revision; }
      }
      assert revisions[..|revisions|] == revisions;
      var revision := base.(id := revisionId, revision := max + 1, status := ReviewRequired, profileData := Some(profileData),
                            promptVersion := Some("editor.v1"), model := Some("manual"), failureCode := None,
                            createdBy := actorId, approvedBy := None);
      revisions := revisions + [revision];
      outbox := outbox + [Event(ReviewRequiredTopic, revisionId)];
      return Done(revision);
    }

    method Complete(id: Id, profileData: string, promptVersion: string, model: string) returns (r: Outcome<Revision>)
      modifies this
      ensures (Contents(), r) == CompleteGeneration(old(Contents()), id, profileData, promptVersion, model)
    {
      var n := Find(id);
      if n == |revisions| { return NotFound; }
      if revisions[n].status != Generating { return Conflict; }
      var updated := revisions[n].(status := ReviewRequired, profileData := Some(profileData),
                                   promptVersion := Some(promptVersion), model := Some(model));
      revisions := revisions[n := updated];
      outbox := outbox + [Event(ReviewRequiredTopic, id)];
      return Done(updated);
    }

    method Fail(id: Id, failureCode: string) returns (r: Outcome<Revision>)
      modifies this
      ensures (Contents(), r) == FailGeneration(old(Contents()), id, failureCode)
    {
      var n := Find(id);
      if n == |revisions| { return NotFound; }
      if revisions[n].status != Generating { return Conflict; }
      var updated := revisions[n].(status := GenerationFailed, failureCode := Some(failureCode));
      revisions := revisions[n := updated];
      return Done(updated);
    }

    method Approve(id: Id, actorId: string) returns (r: Outcome<Revision>)
      modifies this
      ensures (Contents(), r) == ApproveRevision(old(Contents()), id, actorId)
    {
      var n := Find(id);
      if n == |revisions| { return NotFound; }
      var revision := revisions[n];
      if revision.status != ReviewRequired { return Conflict; }
      ghost var was := revisions;
      for i := 0 to |revisions|
        invariant workspaces == old(workspaces) && outbox == old(outbox) && onboardingRequests == old(onboardingRequests)
        invariant |revisions| == |was| && revisions[i..] == was[i..]
        invariant forall k :: 0 <= k < i ==> revisions[k] == Retired(was[k], revision.brandProfileId)
      {
        var existing := revisions[i];
        assert existing == was[i];
        if existing.brandProfileId == revision.brandProfileId && existing.status == Approved {
          revisions := revisions[i := existing.(status := Superseded)];
        }
      }
      assert revisions == RetireApproved(was, revision.brandProfileId);
      var updated := revision.(status := Approved, approvedBy := Some(actorId));
      revisions := revisions[n := updated];
      outbox := outbox + [Event(ApprovedTopic, id)];
      return Done(updated);
    }
  }

  function Empty(): State { State({}, [], [], map[]) }
}
