/** What every reachable state of the brand profile store satisfies. */
module BrandHistory {
  import opened BrandStore

  datatype Op =
    | OpenWorkspace(id: Id)
    | Submit(workspaceId: Id, answers: string, actorId: string, correlationId: string, revisionId: Id, profileId: Id, jobId: Id)
    | Edit(baseId: Id, profileData: string, actorId: string, revisionId: Id)
    | Complete(target: Id, profileData: string, promptVersion: string, model: string)
    | Fail(target: Id, failureCode: string)
    | Approve(target: Id, actorId: string)

  function Apply(s: State, op: Op): State {
    match op
    case OpenWorkspace(id) => s.(workspaces := s.workspaces + {id})
    case Submit(w, answers, actor, correlation, r, p, j) => CreateRevision(s, w, answers, actor, correlation, r, p, j).0
    case Edit(base, data, actor, r) => CreateEditedRevision(s, base, data, actor, r).0
    case Complete(id, data, prompt, model) => CompleteGeneration(s, id, data, prompt, model).0
    case Fail(id, code) => FailGeneration(s, id, code).0
    case Approve(id, actor) => ApproveRevision(s, id, actor).0
  }

  /** A random UUID: new, and without a colon. */
  predicate NewIds(s: State, op: Op) {
    match op
    case OpenWorkspace(id) => id !in s.workspaces && ':' !in id
    case Submit(_, _, _, _, r, p, _) => NewRevisionId(s, r) && forall x :: x in s.revisions ==> x.brandProfileId != p
    case Edit(_, _, _, r) => NewRevisionId(s, r)
    case _ => true
  }

  predicate NewRevisionId(s: State, id: Id) { forall x :: x in s.revisions ==> x.id != id }

  function After(ops: seq<Op>): State {
    if ops == [] then Empty() else Apply(After(ops[..|ops| - 1]), ops[|ops| - 1])
  }

  /** A run of the store in which every generated id is new. */
  predicate IsRun(ops: seq<Op>) {
    ops == [] || (IsRun(ops[..|ops| - 1]) && NewIds(After(ops[..|ops| - 1]), ops[|ops| - 1]))
  }

  // ---- numbering ----

  function Count(rs: seq<Revision>, workspaceId: Id): nat {
    if rs == [] then 0 else Count(rs[..|rs| - 1], workspaceId) + if rs[|rs| - 1].workspaceId == workspaceId then 1 else 0
  }

  /** Each revision's number is its place among the revisions of its workspace. */
  predicate Numbered(rs: seq<Revision>) {
    forall i :: 0 <= i < |rs| ==> rs[i].revision == Count(rs[..i], rs[i].workspaceId) + 1
  }

  /** Workspaces and profiles belong together one to one. */
  predicate OneProfileEach(rs: seq<Revision>) {
    forall i, j :: 0 <= i < |rs| && 0 <= j < |rs| ==>
      (rs[i].workspaceId == rs[j].workspaceId <==> rs[i].brandProfileId == rs[j].brandProfileId)
  }

  predicate UniqueIds(rs: seq<Revision>) {
    forall i, j :: 0 <= i < |rs| && 0 <= j < |rs| && rs[i].id == rs[j].id ==> i == j
  }

  lemma {:induction false} MaxIsCount(rs: seq<Revision>, workspaceId: Id)
    requires Numbered(rs)
    ensures MaxRevision(rs, OfWorkspace(workspaceId)) == Count(rs, workspaceId)
  {
    if rs != [] {
      var n := |rs| - 1;
      NumberedPrefix(rs, n);
      MaxIsCount(rs[..n], workspaceId);
    }
  }

  lemma NumberedPrefix(rs: seq<Revision>, n: nat)
    requires Numbered(rs) && n <= |rs|
    ensures Numbered(rs[..n])
  {
    forall i | 0 <= i < n ensures rs[..n][i].revision == Count(rs[..n][..i], rs[..n][i].workspaceId) + 1 {
      assert rs[..n][..i] == rs[..i];
    }
  }

  /** Numbering by profile and numbering by workspace agree. */
  lemma {:induction false} MaxByProfile(rs: seq<Revision>, workspaceId: Id, profileId: Id)
    requires forall r :: r in rs ==> (r.workspaceId == workspaceId <==> r.brandProfileId == profileId)
    ensures MaxRevision(rs, OfProfile(profileId)) == MaxRevision(rs, OfWorkspace(workspaceId))
  {
    if rs != [] {
      assert forall r :: r in rs[..|rs| - 1] ==> r in rs;
      MaxByProfile(rs[..|rs| - 1], workspaceId, profileId);
    }
  }

  lemma {:induction false} CountGrows(rs: seq<Revision>, i: nat, j: nat, workspaceId: Id)
    requires i <= j <= |rs|
    ensures Count(rs[..i], workspaceId) <= Count(rs[..j], workspaceId)
    ensures (exists k :: i <= k < j && rs[k].workspaceId == workspaceId) ==> Count(rs[..i], workspaceId) < Count(rs[..j], workspaceId)
    decreases j
  {
    if i < j {
      assert rs[..j][..j - 1] == rs[..j - 1];
      CountGrows(rs, i, j - 1, workspaceId);
    }
  }

  /** Among a workspace's revisions every number from 1 to their count occurs. */
  lemma {:induction false} SomePlace(rs: seq<Revision>, workspaceId: Id, number: nat) returns (i: nat)
    requires Numbered(rs) && 1 <= number <= Count(rs, workspaceId)
    ensures i < |rs| && rs[i].workspaceId == workspaceId && rs[i].revision == number
  {
    var n := |rs| - 1;
    if rs[n].workspaceId == workspaceId && Count(rs[..n], workspaceId) + 1 == number {
      i := n;
    } else {
      NumberedPrefix(rs, n);
      i := SomePlace(rs[..n], workspaceId, number);
    }
  }

  // ---- approvals ----

  function ProfileOf(rs: seq<Revision>, id: Id): Option<Id> {
    var n := Position(rs, id);
    if n < |rs| then Some(rs[n].brandProfileId) else None
  }

  /** The revision named by the profile's last approved event. */
  function LastApproved(outbox: seq<Event>, rs: seq<Revision>, profileId: Id): Option<Id> {
    if outbox == [] then None
    else
      var last := outbox[|outbox| - 1];
      if last.topic == ApprovedTopic && ProfileOf(rs, last.aggregateId) == Some(profileId) then Some(last.aggregateId)
      else LastApproved(outbox[..|outbox| - 1], rs, profileId)
  }

  predicate ApprovedIsLast(outbox: seq<Event>, rs: seq<Revision>) {
    forall i :: 0 <= i < |rs| ==>
      (rs[i].status == Approved <==> LastApproved(outbox, rs, rs[i].brandProfileId) == Some(rs[i].id))
  }

  predicate EventsNameRevisions(outbox: seq<Event>, rs: seq<Revision>) {
    forall e :: e in outbox ==> Position(rs, e.aggregateId) < |rs|
  }

  predicate SameOwners(outbox: seq<Event>, rs: seq<Revision>, rs': seq<Revision>) {
    forall e :: e in outbox ==> ProfileOf(rs, e.aggregateId) == ProfileOf(rs', e.aggregateId)
  }

  lemma {:induction false} LastApprovedKept(outbox: seq<Event>, rs: seq<Revision>, rs': seq<Revision>, profileId: Id)
    requires SameOwners(outbox, rs, rs')
    ensures LastApproved(outbox, rs, profileId) == LastApproved(outbox, rs', profileId)
  {
    hide ProfileOf;
    if outbox != [] {
      assert forall e :: e in outbox[..|outbox| - 1] ==> e in outbox;
      LastApprovedKept(outbox[..|outbox| - 1], rs, rs', profileId);
    }
  }

  lemma {:induction false} LastApprovedSource(outbox: seq<Event>, rs: seq<Revision>, profileId: Id)
    ensures LastApproved(outbox, rs, profileId).Some? ==>
              (exists e :: e in outbox && e.aggregateId == LastApproved(outbox, rs, profileId).value)
              && ProfileOf(rs, LastApproved(outbox, rs, profileId).value) == Some(profileId)
  {
    hide ProfileOf;
    if outbox != [] {
      assert forall e :: e in outbox[..|outbox| - 1] ==> e in outbox;
      LastApprovedSource(outbox[..|outbox| - 1], rs, profileId);
    }
  }

  // ---- two ways a state changes ----

  predicate SameIdentity(a: Revision, b: Revision) {
    && a.id == b.id && a.workspaceId == b.workspaceId && a.brandProfileId == b.brandProfileId
    && a.revision == b.revision && a.answers == b.answers && a.createdBy == b.createdBy
  }

  /** Revisions are only added; those that were there keep their identity. */
  predicate Extends(rs: seq<Revision>, rs': seq<Revision>) {
    |rs| <= |rs'| && forall i :: 0 <= i < |rs| ==> SameIdentity(rs[i], rs'[i])
  }

  lemma {:induction false} PositionKept(rs: seq<Revision>, rs': seq<Revision>, id: Id)
    requires Extends(rs, rs')
    ensures Position(rs, id) < |rs| ==> Position(rs', id) == Position(rs, id)
  {
    if rs != [] && rs[0].id != id {
      forall i | 0 <= i < |rs[1..]| ensures SameIdentity(rs[1..][i], rs'[1..][i]) {
        assert SameIdentity(rs[i + 1], rs'[i + 1]);
      }
      PositionKept(rs[1..], rs'[1..], id);
    }
  }

  lemma OwnersKept(outbox: seq<Event>, rs: seq<Revision>, rs': seq<Revision>)
    requires Extends(rs, rs') && EventsNameRevisions(outbox, rs)
    ensures SameOwners(outbox, rs, rs') && EventsNameRevisions(outbox, rs')
  {
    forall e | e in outbox
      ensures ProfileOf(rs, e.aggregateId) == ProfileOf(rs', e.aggregateId) && Position(rs', e.aggregateId) < |rs'|
    {
      PositionKept(rs, rs', e.aggregateId);
    }
  }

  lemma {:induction false} CountKept(rs: seq<Revision>, rs': seq<Revision>, workspaceId: Id)
    requires |rs| == |rs'| && Extends(rs, rs')
    ensures Count(rs, workspaceId) == Count(rs', workspaceId)
  {
    if rs != [] {
      var n := |rs| - 1;
      ExtendsPrefix(rs, rs', n);
      CountKept(rs[..n], rs'[..n], workspaceId);
    }
  }

  lemma ExtendsPrefix(rs: seq<Revision>, rs': seq<Revision>, n: nat)
    requires Extends(rs, rs') && n <= |rs|
    ensures Extends(rs[..n], rs'[..n])
  {
  }

  /** The parts of the invariant that depend only on identities. */
  predicate Shape(rs: seq<Revision>, workspaces: set<Id>) {
    && UniqueIds(rs) && OneProfileEach(rs) && Numbered(rs)
    && forall r :: r in rs ==> r.workspaceId in workspaces
  }

  lemma ShapeKept(rs: seq<Revision>, rs': seq<Revision>, workspaces: set<Id>)
    requires |rs| == |rs'| && Extends(rs, rs') && Shape(rs, workspaces)
    ensures Shape(rs', workspaces)
  {
    assert forall i :: 0 <= i < |rs| ==> SameIdentity(rs[i], rs'[i]) && rs[i] in rs;
    forall i | 0 <= i < |rs'| ensures rs'[i].revision == Count(rs'[..i], rs'[i].workspaceId) + 1 {
      ExtendsPrefix(rs, rs', i);
      CountKept(rs[..i], rs'[..i], rs'[i].workspaceId);
    }
  }

  lemma NumberedGrows(rs: seq<Revision>, r: Revision)
    requires Numbered(rs) && r.revision == MaxRevision(rs, OfWorkspace(r.workspaceId)) + 1
    ensures Numbered(rs + [r])
  {
    hide MaxRevision, Count;
    MaxIsCount(rs, r.workspaceId);
    var rs' := rs + [r];
    forall i | 0 <= i < |rs'| ensures rs'[i].revision == Count(rs'[..i], rs'[i].workspaceId) + 1 {
      if i < |rs| { assert rs'[..i] == rs[..i]; } else { assert rs'[..i] == rs; }
    }
  }

  lemma ShapeGrows(rs: seq<Revision>, r: Revision, workspaces: set<Id>)
    requires Shape(rs, workspaces) && r.workspaceId in workspaces
    requires forall x :: x in rs ==> x.id != r.id && (x.workspaceId == r.workspaceId <==> x.brandProfileId == r.brandProfileId)
    requires r.revision == MaxRevision(rs, OfWorkspace(r.workspaceId)) + 1
    ensures Shape(rs + [r], workspaces)
  {
    NumberedGrows(rs, r);
    hide Numbered, MaxRevision;
    assert forall i :: 0 <= i < |rs| ==> rs[i] in rs;
  }

  // ---- the invariant ----

  predicate PriorResults(s: State) {
    && (forall w :: w in s.workspaces ==> ':' !in w)
    && forall key :: key in s.requests ==> GoodResult(s, key, s.requests[key])
  }

  /** A remembered result belongs to its key and names a revision as it was created. */
  predicate GoodResult(s: State, key: string, result: NewRevisionResult) {
    && key == RequestKey(result.revision.workspaceId, result.job.correlationId)
    && result.revision.workspaceId in s.workspaces && result.revision.status == Generating
    && result.job.revisionId == result.revision.id
    && var n := Position(s.revisions, result.revision.id); n < |s.revisions| && SameIdentity(result.revision, s.revisions[n])
  }

  predicate Inv(s: State) {
    && Shape(s.revisions, s.workspaces)
    && EventsNameRevisions(s.outbox, s.revisions)
    && ApprovedIsLast(s.outbox, s.revisions)
    && PriorResults(s)
  }

  lemma ApprovalsKept(outbox: seq<Event>, e: Event, rs: seq<Revision>, rs': seq<Revision>)
    requires |rs| == |rs'| && Extends(rs, rs') && EventsNameRevisions(outbox, rs) && ApprovedIsLast(outbox, rs)
    requires forall i :: 0 <= i < |rs| ==> (rs[i].status == Approved <==> rs'[i].status == Approved)
    requires e.topic != ApprovedTopic
    ensures ApprovedIsLast(outbox, rs') && ApprovedIsLast(outbox + [e], rs')
  {
    OwnersKept(outbox, rs, rs');
    assert (outbox + [e])[..|outbox|] == outbox;
    forall i | 0 <= i < |rs'|
      ensures rs'[i].status == Approved <==> LastApproved(outbox, rs', rs'[i].brandProfileId) == Some(rs'[i].id)
      ensures LastApproved(outbox + [e], rs', rs'[i].brandProfileId) == LastApproved(outbox, rs', rs'[i].brandProfileId)
    {
      assert SameIdentity(rs[i], rs'[i]);
      LastApprovedKept(outbox, rs, rs', rs'[i].brandProfileId);
    }
  }

  lemma ApprovalsGrow(outbox: seq<Event>, e: Event, rs: seq<Revision>, r: Revision)
    requires EventsNameRevisions(outbox, rs) && ApprovedIsLast(outbox, rs)
    requires r.status != Approved && e.topic != ApprovedTopic && forall x :: x in rs ==> x.id != r.id
    ensures ApprovedIsLast(outbox + [e], rs + [r])
  {
    var rs' := rs + [r];
    OwnersKept(outbox, rs, rs');
    assert (outbox + [e])[..|outbox|] == outbox;
    hide ProfileOf;
    forall i | 0 <= i < |rs'|
      ensures rs'[i].status == Approved <==> LastApproved(outbox + [e], rs', rs'[i].brandProfileId) == Some(rs'[i].id)
    {
      LastApprovedKept(outbox, rs, rs', rs'[i].brandProfileId);
      LastApprovedSource(outbox, rs, rs'[i].brandProfileId);
    }
  }

  lemma LastApprovedMoves(outbox: seq<Event>, rs: seq<Revision>, id: Id, p: Id, q: Id)
    requires ProfileOf(rs, id) == Some(p)
    ensures LastApproved(outbox + [Event(ApprovedTopic, id)], rs, q) == if q == p then Some(id) else LastApproved(outbox, rs, q)
  {
    hide ProfileOf;
    assert (outbox + [Event(ApprovedTopic, id)])[..|outbox|] == outbox;
  }

  lemma RetireKeeps(rs: seq<Revision>, n: nat, actorId: string)
    requires n < |rs|
    ensures Extends(rs, RetireApproved(rs, rs[n].brandProfileId)[n := rs[n].(status := Approved, approvedBy := Some(actorId))])
  {
  }

  lemma ProfileKept(rs: seq<Revision>, rs': seq<Revision>, n: nat)
    requires n < |rs| && Extends(rs, rs') && Position(rs, rs[n].id) == n
    ensures ProfileOf(rs', rs[n].id) == Some(rs[n].brandProfileId)
  {
    PositionKept(rs, rs', rs[n].id);
    assert SameIdentity(rs[n], rs'[n]);
  }

  /** Approving moves the one approval of the profile. */
  lemma ApprovalMoves(outbox: seq<Event>, rs: seq<Revision>, n: nat, actorId: string)
    requires n < |rs| && UniqueIds(rs) && EventsNameRevisions(outbox, rs) && ApprovedIsLast(outbox, rs)
    requires Position(rs, rs[n].id) == n
    ensures var rs' := RetireApproved(rs, rs[n].brandProfileId)[n := rs[n].(status := Approved, approvedBy := Some(actorId))];
            Extends(rs, rs') && ApprovedIsLast(outbox + [Event(ApprovedTopic, rs[n].id)], rs')
  {
    var p, id := rs[n].brandProfileId, rs[n].id;
    var rs' := RetireApproved(rs, p)[n := rs[n].(status := Approved, approvedBy := Some(actorId))];
    RetireKeeps(rs, n, actorId);
    ProfileKept(rs, rs', n);
    hide Position, LastApproved, ProfileOf, Extends;
    OwnersKept(outbox, rs, rs');
    hide EventsNameRevisions, SameOwners, SameIdentity;
    forall i | 0 <= i < |rs'|
      ensures rs'[i].status == Approved <==> LastApproved(outbox + [Event(ApprovedTopic, id)], rs', rs'[i].brandProfileId) == Some(rs'[i].id)
    {
      LastApprovedKept(outbox, rs, rs', rs'[i].brandProfileId);
      LastApprovedMoves(outbox, rs', id, p, rs'[i].brandProfileId);
    }
  }

  lemma ResultKept(s: State, t: State, key: string, result: NewRevisionResult)
    requires GoodResult(s, key, result) && Extends(s.revisions, t.revisions) && s.workspaces <= t.workspaces
    ensures GoodResult(t, key, result)
  {
    PositionKept(s.revisions, t.revisions, result.revision.id);
    var n := Position(s.revisions, result.revision.id);
    assert SameIdentity(s.revisions[n], t.revisions[n]);
  }

  lemma ResultsKept(s: State, t: State)
    requires PriorResults(s) && Extends(s.revisions, t.revisions) && t.workspaces == s.workspaces && t.requests == s.requests
    ensures PriorResults(t)
  {
    hide GoodResult, Extends;
    forall key | key in t.requests ensures GoodResult(t, key, t.requests[key]) {
      ResultKept(s, t, key, t.requests[key]);
    }
  }

  // ---- each operation keeps the invariant ----

  lemma PositionAtEnd(rs: seq<Revision>, r: Revision)
    requires forall x :: x in rs ==> x.id != r.id
    ensures Position(rs + [r], r.id) == |rs|
  {
    var more := rs + [r];
    assert forall k :: 0 <= k < |rs| ==> more[k] in rs;
    assert more[|rs|] == r;
  }

  /** Adding a revision with its event keeps everything but, perhaps, the remembered results. */
  lemma RevisionAdded(s: State, r: Revision, topic: Topic)
    requires Inv(s) && NewRevisionId(s, r.id) && r.workspaceId in s.workspaces && r.status != Approved && topic != ApprovedTopic
    requires forall x :: x in s.revisions ==> (x.workspaceId == r.workspaceId <==> x.brandProfileId == r.brandProfileId)
    requires r.revision == MaxRevision(s.revisions, OfWorkspace(r.workspaceId)) + 1
    ensures var t := s.(revisions := s.revisions + [r], outbox := s.outbox + [Event(topic, r.id)]);
            Extends(s.revisions, t.revisions) && Inv(t) && Position(t.revisions, r.id) == |s.revisions|
  {
    hide Shape, ApprovedIsLast, PriorResults;
    var rs := s.revisions + [r];
    var t := s.(revisions := rs, outbox := s.outbox + [Event(topic, r.id)]);
    assert Extends(s.revisions, rs);
    ShapeGrows(s.revisions, r, s.workspaces);
    ApprovalsGrow(s.outbox, Event(topic, r.id), s.revisions, r);
    OwnersKept(s.outbox, s.revisions, rs);
    PositionAtEnd(s.revisions, r);
    ResultsKept(s, t);
  }

  /** Changing one revision's contents, with an event other than an approval or none. */
  lemma RevisionChanged(s: State, n: nat, r: Revision, outbox: seq<Event>)
    requires Inv(s) && n < |s.revisions| && SameIdentity(s.revisions[n], r) && Position(s.revisions, r.id) == n
    requires s.revisions[n].status != Approved && r.status != Approved
    requires outbox == s.outbox || outbox == s.outbox + [Event(ReviewRequiredTopic, r.id)]
    ensures var t := s.(revisions := s.revisions[n := r], outbox := outbox);
            Extends(s.revisions, t.revisions) && Inv(t)
  {
    hide Shape, ApprovedIsLast, PriorResults;
    var rs := s.revisions[n := r];
    assert Extends(s.revisions, rs);
    ShapeKept(s.revisions, rs, s.workspaces);
    ApprovalsKept(s.outbox, Event(ReviewRequiredTopic, r.id), s.revisions, rs);
    OwnersKept(s.outbox, s.revisions, rs);
    PositionKept(s.revisions, rs, r.id);
    ResultsKept(s, s.(revisions := rs, outbox := outbox));
  }

  lemma FirstProfileIsTheProfile(rs: seq<Revision>, workspaceId: Id)
    ensures FirstProfile(rs, workspaceId).None? ==> forall r :: r in rs ==> r.workspaceId != workspaceId
    ensures FirstProfile(rs, workspaceId).Some? ==>
              exists r :: r in rs && r.workspaceId == workspaceId && r.brandProfileId == FirstProfile(rs, workspaceId).value
  {
    if rs != [] && rs[0].workspaceId != workspaceId {
      FirstProfileIsTheProfile(rs[1..], workspaceId);
      assert rs == [rs[0]] + rs[1..];
    } else if rs != [] {
      assert rs[0] in rs;
    }
  }

  lemma SubmitKeeps(s: State, op: Op)
    requires Inv(s) && NewIds(s, op) && op.Submit?
    ensures Inv(Apply(s, op)) && Extends(s.revisions, Apply(s, op).revisions)
  {
    if Apply(s, op) != s {
      var r := Apply(s, op).revisions[|s.revisions|];
      ProfileFits(s, op, r);
      hide Inv, Extends, MaxRevision, FirstProfile;
      RevisionAdded(s, r, GenerationRequested);
      SubmitRemembers(s, op, r);
    }
  }

  lemma SubmitRemembers(s: State, op: Op, r: Revision)
    requires op.Submit? && op.workspaceId in s.workspaces && r.workspaceId == op.workspaceId && r.status == Generating
    requires var t := s.(revisions := s.revisions + [r], outbox := s.outbox + [Event(GenerationRequested, r.id)]);
             Inv(t) && Position(t.revisions, r.id) == |s.revisions|
    ensures var t := s.(revisions := s.revisions + [r], outbox := s.outbox + [Event(GenerationRequested, r.id)]);
            Inv(t.(requests := t.requests[RequestKey(op.workspaceId, op.correlationId) :=
                                          NewRevisionResult(r, Job(op.jobId, r.id, op.correlationId))]))
  {
    hide Inv, Position, RequestKey;
    var t := s.(revisions := s.revisions + [r], outbox := s.outbox + [Event(GenerationRequested, r.id)]);
    Remembered(t, RequestKey(op.workspaceId, op.correlationId), NewRevisionResult(r, Job(op.jobId, r.id, op.correlationId)));
  }

  lemma ProfileFits(s: State, op: Op, r: Revision)
    requires Inv(s) && NewIds(s, op) && op.Submit? && r.workspaceId == op.workspaceId
    requires var first := FirstProfile(s.revisions, op.workspaceId);
             r.brandProfileId == if first.Some? then first.value else op.profileId
    ensures forall x :: x in s.revisions ==> (x.workspaceId == r.workspaceId <==> x.brandProfileId == r.brandProfileId)
  {
    FirstProfileIsTheProfile(s.revisions, op.workspaceId);
    hide FirstProfile, UniqueIds, Numbered, ApprovedIsLast, PriorResults, EventsNameRevisions;
  }

  lemma Remembered(s: State, key: string, result: NewRevisionResult)
    requires Inv(s) && GoodResult(s, key, result)
    ensures Inv(s.(requests := s.requests[key := result]))
  {
    hide Shape, EventsNameRevisions, ApprovedIsLast;
    var t := s.(requests := s.requests[key := result]);
    forall k | k in t.requests ensures GoodResult(t, k, t.requests[k]) {
      assert k == key || GoodResult(s, k, s.requests[k]);
    }
  }

  lemma EditKeeps(s: State, op: Op)
    requires Inv(s) && NewIds(s, op) && op.Edit?
    ensures Inv(Apply(s, op)) && Extends(s.revisions, Apply(s, op).revisions)
  {
    var n := Position(s.revisions, op.baseId);
    if Apply(s, op) != s {
      var r := Apply(s, op).revisions[|s.revisions|];
      NextNumber(s, s.revisions[n]);
      hide Inv, Extends, MaxRevision;
      RevisionAdded(s, r, ReviewRequiredTopic);
    }
  }

  /** Numbering by the base's profile gives the next number of its workspace. */
  lemma NextNumber(s: State, base: Revision)
    requires Inv(s) && base in s.revisions
    ensures MaxRevision(s.revisions, OfProfile(base.brandProfileId)) == MaxRevision(s.revisions, OfWorkspace(base.workspaceId))
    ensures base.workspaceId in s.workspaces
    ensures forall x :: x in s.revisions ==> (x.workspaceId == base.workspaceId <==> x.brandProfileId == base.brandProfileId)
  {
    hide MaxRevision, UniqueIds, Numbered, EventsNameRevisions, ApprovedIsLast, PriorResults;
    ProfilesOf(s.revisions, base);
    MaxByProfile(s.revisions, base.workspaceId, base.brandProfileId);
  }

  lemma ProfilesOf(rs: seq<Revision>, base: Revision)
    requires OneProfileEach(rs) && base in rs
    ensures forall x :: x in rs ==> (x.workspaceId == base.workspaceId <==> x.brandProfileId == base.brandProfileId)
  {
  }

  lemma FinishKeeps(s: State, op: Op)
    requires Inv(s) && (op.Complete? || op.Fail?)
    ensures Inv(Apply(s, op)) && Extends(s.revisions, Apply(s, op).revisions)
  {
    hide Inv, Extends, Position;
    var n := Position(s.revisions, op.target);
    if n < |s.revisions| && s.revisions[n].status == Generating {
      RevisionChanged(s, n, Apply(s, op).revisions[n], Apply(s, op).outbox);
    } else {
      ExtendsItself(s.revisions);
    }
  }

  lemma ExtendsItself(rs: seq<Revision>)
    ensures Extends(rs, rs)
  {
  }

  lemma ApproveKeeps(s: State, op: Op)
    requires Inv(s) && op.Approve?
    ensures Inv(Apply(s, op)) && Extends(s.revisions, Apply(s, op).revisions)
  {
    hide ApprovedIsLast, PriorResults, Numbered, OneProfileEach;
    var t := Apply(s, op);
    if t != s {
      var n := Position(s.revisions, op.target);
      ApprovalMoves(s.outbox, s.revisions, n, op.actorId);
      hide UniqueIds;
      ShapeKept(s.revisions, t.revisions, s.workspaces);
      hide Shape;
      OwnersKept(s.outbox, s.revisions, t.revisions);
      PositionKept(s.revisions, t.revisions, op.target);
      ResultsKept(s, t);
    }
  }

  lemma OpenKeeps(s: State, op: Op)
    requires Inv(s) && NewIds(s, op) && op.OpenWorkspace?
    ensures Inv(Apply(s, op)) && Extends(s.revisions, Apply(s, op).revisions)
  {
    hide ApprovedIsLast, EventsNameRevisions, Numbered, OneProfileEach, UniqueIds;
    forall key | key in s.requests ensures GoodResult(Apply(s, op), key, s.requests[key]) {
      ResultKept(s, Apply(s, op), key, s.requests[key]);
    }
  }

  lemma StepKeeps(s: State, op: Op)
    requires Inv(s) && NewIds(s, op)
    ensures Inv(Apply(s, op)) && Extends(s.revisions, Apply(s, op).revisions)
  {
    hide Inv, NewIds, Apply, Extends;
    match op
    case OpenWorkspace(_) => OpenKeeps(s, op);
    case Submit(_, _, _, _, _, _, _) => SubmitKeeps(s, op);
    case Edit(_, _, _, _) => EditKeeps(s, op);
    case Complete(_, _, _, _) => FinishKeeps(s, op);
    case Fail(_, _) => FinishKeeps(s, op);
    case Approve(_, _) => ApproveKeeps(s, op);
  }

  lemma {:induction false} Reachable(ops: seq<Op>)
    requires IsRun(ops)
    ensures Inv(After(ops))
  {
    if ops == [] {
      assert Inv(Empty());
    } else {
      hide Inv, NewIds, Apply;
      Reachable(ops[..|ops| - 1]);
      StepKeeps(After(ops[..|ops| - 1]), ops[|ops| - 1]);
    }
  }

  // ---- what holds in every run ----

  /** The workspace's revisions carry exactly the numbers 1 to n, in the order they were made. */
  predicate NumbersOneTo(rs: seq<Revision>, workspaceId: Id, n: nat) {
    && (forall i :: 0 <= i < |rs| && rs[i].workspaceId == workspaceId ==> 1 <= rs[i].revision <= n)
    && (forall k {:trigger HasNumber(rs, workspaceId, k)} :: 1 <= k <= n ==> HasNumber(rs, workspaceId, k))
    && (forall i, j :: 0 <= i < j < |rs| && rs[i].workspaceId == workspaceId && rs[j].workspaceId == workspaceId ==>
          rs[i].revision < rs[j].revision)
  }

  predicate HasNumber(rs: seq<Revision>, workspaceId: Id, k: nat) {
    exists i :: 0 <= i < |rs| && rs[i].workspaceId == workspaceId && rs[i].revision == k
  }

  lemma NumberedOneTo(rs: seq<Revision>, workspaceId: Id)
    requires Numbered(rs)
    ensures NumbersOneTo(rs, workspaceId, Count(rs, workspaceId))
  {
    forall i | 0 <= i < |rs| && rs[i].workspaceId == workspaceId ensures 1 <= rs[i].revision <= Count(rs, workspaceId) {
      CountGrows(rs, i, |rs|, workspaceId);
      assert rs[..|rs|] == rs;
    }
    hide Count;
    forall k | 1 <= k <= Count(rs, workspaceId) ensures HasNumber(rs, workspaceId, k) {
      var i := SomePlace(rs, workspaceId, k);
    }
    forall i, j | 0 <= i < j < |rs| && rs[i].workspaceId == workspaceId && rs[j].workspaceId == workspaceId
      ensures rs[i].revision < rs[j].revision
    {
      CountGrows(rs, i, j, workspaceId);
    }
  }

  /** In every run a workspace has one profile, and its revisions are numbered exactly 1 to n. */
  lemma RevisionsAreNumbered(ops: seq<Op>, workspaceId: Id)
    requires IsRun(ops)
    ensures OneProfileEach(After(ops).revisions)
    ensures NumbersOneTo(After(ops).revisions, workspaceId, Count(After(ops).revisions, workspaceId))
  {
    Reachable(ops);
    hide After, IsRun, PriorResults, ApprovedIsLast, NumbersOneTo;
    NumberedOneTo(After(ops).revisions, workspaceId);
  }

  predicate OnlyApproved(rs: seq<Revision>, i: nat)
    requires i < |rs|
  {
    forall j :: 0 <= j < |rs| && rs[j].brandProfileId == rs[i].brandProfileId && rs[j].status == Approved ==> j == i
  }

  /** A revision is approved exactly when its profile's last approved event names it; so at most one is. */
  lemma OneApprovedRevision(ops: seq<Op>, i: nat)
    requires IsRun(ops) && i < |After(ops).revisions|
    ensures var s := After(ops); var r := s.revisions[i];
            && (r.status == Approved <==> LastApproved(s.outbox, s.revisions, r.brandProfileId) == Some(r.id))
            && (r.status == Approved ==> OnlyApproved(s.revisions, i))
  {
    Reachable(ops);
    hide After, IsRun, PriorResults, Numbered, EventsNameRevisions;
  }

  function AfterFrom(s: State, ops: seq<Op>): State
    decreases |ops|
  {
    if ops == [] then s else AfterFrom(Apply(s, ops[0]), ops[1..])
  }

  lemma RequestsKept(s: State, op: Op, key: string)
    requires key in s.requests
    ensures key in Apply(s, op).requests && Apply(s, op).requests[key] == s.requests[key] && s.workspaces <= Apply(s, op).workspaces
  {
    hide Position, FirstProfile, MaxRevision, RetireApproved;
  }

  lemma {:induction false} RequestsStay(s: State, ops: seq<Op>, key: string)
    requires key in s.requests
    ensures key in AfterFrom(s, ops).requests && AfterFrom(s, ops).requests[key] == s.requests[key]
    ensures s.workspaces <= AfterFrom(s, ops).workspaces
    decreases |ops|
  {
    hide Apply;
    if ops != [] {
      RequestsKept(s, ops[0], key);
      RequestsStay(Apply(s, ops[0]), ops[1..], key);
    }
  }

  /**
   After a submission succeeded, and whatever happened since, submitting the same key again changes
   nothing and returns the original result, whatever else the second submission says.
   */
  lemma ResubmissionIsIdempotent(s: State, submit: Op, later: seq<Op>, again: Op)
    requires submit.Submit? && again.Submit? && submit.workspaceId in s.workspaces
    requires again.workspaceId == submit.workspaceId && again.correlationId == submit.correlationId
    ensures var t := AfterFrom(Apply(s, submit), later);
            && Apply(t, again) == t
            && CreateRevision(t, again.workspaceId, again.answers, again.actorId, again.correlationId,
                              again.revisionId, again.profileId, again.jobId).1
               == CreateRevision(s, submit.workspaceId, submit.answers, submit.actorId, submit.correlationId,
                                 submit.revisionId, submit.profileId, submit.jobId).1
  {
    var key := RequestKey(submit.workspaceId, submit.correlationId);
    var u := Apply(s, submit);
    assert key in u.requests && u.workspaces == s.workspaces;
    RequestsStay(u, later, key);
    hide AfterFrom, FirstProfile, MaxRevision;
  }

  /** The first colon of a key ends the workspace id. */
  lemma FirstColon(a: string, c: string, k: nat)
    requires ':' !in a && k < |RequestKey(a, c)|
    ensures k < |a| ==> RequestKey(a, c)[k] == a[k] != ':'
    ensures k == |a| ==> RequestKey(a, c)[k] == ':'
  {
  }

  lemma KeysDiffer(a: string, b: string, c: string, d: string)
    requires ':' !in a && ':' !in b && RequestKey(a, c) == RequestKey(b, d)
    ensures a == b && c == d
  {
    var x, y := RequestKey(a, c), RequestKey(b, d);
    FirstColon(a, c, |a|);
    FirstColon(a, c, |b|);
    FirstColon(b, d, |a|);
    FirstColon(b, d, |b|);
    assert |a| == |b|;
    assert a == x[..|a|] && b == y[..|b|];
    assert c == x[|a| + 1..] && d == y[|b| + 1..];
  }

  /** A result is only ever returned to the workspace and correlation id that created it. */
  lemma ResultsAreNotShared(ops: seq<Op>, workspaceId: Id, correlationId: string)
    requires IsRun(ops) && workspaceId in After(ops).workspaces && RequestKey(workspaceId, correlationId) in After(ops).requests
    ensures var s := After(ops);
            var result := s.requests[RequestKey(workspaceId, correlationId)];
            && result.revision.workspaceId == workspaceId && result.job.correlationId == correlationId
            && var n := Position(s.revisions, result.revision.id);
               n < |s.revisions| && SameIdentity(result.revision, s.revisions[n])
  {
    Reachable(ops);
    var s := After(ops);
    var key := RequestKey(workspaceId, correlationId);
    hide After, IsRun, Shape, ApprovedIsLast, EventsNameRevisions, Position, RequestKey;
    assert GoodResult(s, key, s.requests[key]);
    KeysDiffer(workspaceId, s.requests[key].revision.workspaceId, correlationId, s.requests[key].job.correlationId);
  }

  /** Revisions are never removed, and never change their number, profile, workspace or answers. */
  lemma {:induction false} HistoryIsAppendOnly(ops: seq<Op>, n: nat)
    requires IsRun(ops) && n <= |ops|
    ensures Extends(After(ops[..n]).revisions, After(ops).revisions)
    decreases |ops|
  {
    if n == |ops| {
      assert ops[..n] == ops;
    } else {
      var most := ops[..|ops| - 1];
      assert most[..n] == ops[..n];
      HistoryIsAppendOnly(most, n);
      Reachable(most);
      StepKeeps(After(most), ops[|ops| - 1]);
      ExtendsTwice(After(ops[..n]).revisions, After(most).revisions, After(ops).revisions);
    }
  }

  lemma ExtendsTwice(a: seq<Revision>, b: seq<Revision>, c: seq<Revision>)
    requires Extends(a, b) && Extends(b, c)
    ensures Extends(a, c)
  {
    forall i | 0 <= i < |a| ensures SameIdentity(a[i], c[i]) {
      assert SameIdentity(a[i], b[i]) && SameIdentity(b[i], c[i]);
    }
  }
}
