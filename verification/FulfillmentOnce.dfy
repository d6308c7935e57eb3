/** How often a shipment is fulfilled: what every run of `FulfillmentProtocol` keeps about requests and fulfilments. */
module FulfillmentOnce {
  import opened Lease
  import opened FulfillmentPublisher
  import opened FulfillmentStore
  import opened FulfillmentProtocol
  import RetryPolicy

  // ---- the requests on their way ----

  ghost predicate Unsent(sent: set<Request>, worker: WorkerId, job: Id, claim: nat) {
    forall r :: r in sent && r.worker == worker && r.job == job ==> r.claim != claim
  }

  /** A claim that has not looked up yet has not sent anything. */
  ghost predicate PcFresh(claims: map<Id, nat>, sent: set<Request>, worker: WorkerId, pc: Pc) {
    pc.Ready? || pc.LookingUp? ==> pc.claim <= ClaimOf(claims, pc.job) && Unsent(sent, worker, pc.job, pc.claim)
  }

  ghost predicate SameClaim(r: Request, q: Request) { r.worker == q.worker && r.job == q.job && r.claim == q.claim }

  /** A claim sends at most one request. */
  ghost predicate OneEach(claims: map<Id, nat>, sent: set<Request>) {
    && (forall r :: r in sent ==> r.claim <= ClaimOf(claims, r.job))
    && (forall r, q :: r in sent && q in sent && SameClaim(r, q) ==> r == q)
  }

  ghost predicate ClaimsOk(w: World) {
    OneEach(w.claims, w.sent) && forall u :: u in w.pcs ==> PcFresh(w.claims, w.sent, u, w.pcs[u])
  }

  lemma ClaimsMove(w: World, worker: WorkerId, pc: Pc)
    requires ClaimsOk(w) && PcFresh(w.claims, w.sent, worker, pc)
    ensures ClaimsOk(Goto(w, worker, pc))
  {
  }

  lemma ClaimsFreshAt(w: World, worker: WorkerId)
    requires ClaimsOk(w)
    ensures PcFresh(w.claims, w.sent, worker, PcOf(w, worker))
  {
  }

  lemma ClaimsClaim(cfg: Config, w: World, worker: WorkerId, job: Id)
    requires ClaimsOk(w)
    ensures ClaimsOk(ApplyClaim(cfg, w, worker, job))
  {
    if PcOf(w, worker) == Idle && CanClaim(w.table, job, w.now, cfg) {
      var next := w.claims[job := ClaimOf(w.claims, job) + 1];
      assert OneEach(next, w.sent);
      forall u | u in w.pcs ensures PcFresh(next, w.sent, u, w.pcs[u]) {
        assert PcFresh(w.claims, w.sent, u, w.pcs[u]);
      }
    }
  }

  lemma ClaimsSend(cfg: Config, ships: Shipments, w: World, a: Action)
    requires ClaimsOk(w) && a.LookedUp?
    ensures ClaimsOk(Apply(cfg, ships, w, a))
  {
    var pc := PcOf(w, a.worker);
    ClaimsFreshAt(w, a.worker);
    hide PlanFor, RefusalMessage, CreatedLines, FlatGroups, StatusText, RetryPolicy.BackoffMs;
    var request := Sends(ships, w, a);
    if request.Some? {
      var sent := w.sent + {request.value};
      assert OneEach(w.claims, sent);
      forall u | u in w.pcs && u != a.worker ensures PcFresh(w.claims, sent, u, w.pcs[u]) {
        assert PcFresh(w.claims, w.sent, u, w.pcs[u]);
      }
    }
  }

  lemma ClaimsLand(ships: Shipments, w: World, r: Request, id: string)
    requires ClaimsOk(w)
    ensures ClaimsOk(ApplyTakesEffect(ships, w, r, id))
  {
    if CanTakeEffect(ships, w, r) {
      ClaimsFreshAt(w, r.worker);
      var sent := w.sent - {r};
      forall u | u in w.pcs ensures PcFresh(w.claims, sent, u, w.pcs[u]) {
        assert PcFresh(w.claims, w.sent, u, w.pcs[u]);
      }
    }
  }

  lemma ClaimsStep(cfg: Config, ships: Shipments, w: World, a: Action)
    requires ClaimsOk(w)
    ensures ClaimsOk(Apply(cfg, ships, w, a))
  {
    match a
    case ClaimJob(worker, job) => ClaimsClaim(cfg, w, worker, job);
    case LookedUp(_, _, _, _) => ClaimsSend(cfg, ships, w, a);
    case TakesEffect(r, id) => ClaimsLand(ships, w, r, id);
    case Renew(worker, _) =>
      RenewMoves(cfg, ships, w, a);
      ClaimsMoved(w, Apply(cfg, ships, w, a), worker);
    case CallFailed(worker, _, _) =>
      CallFailedMoves(cfg, ships, w, a);
      ClaimsMoved(w, Apply(cfg, ships, w, a), worker);
    case Returned(worker) =>
      ReturnedMoves(cfg, ships, w, a);
      ClaimsMoved(w, Apply(cfg, ships, w, a), worker);
    case Report(worker, _, _) =>
      ReportMoves(cfg, ships, w, a);
      ClaimsMoved(w, Apply(cfg, ships, w, a), worker);
    case Settle(worker, _) =>
      SettleMoves(cfg, ships, w, a);
      ClaimsMoved(w, Apply(cfg, ships, w, a), worker);
    case Crash(worker) =>
      CrashMoves(cfg, ships, w, a);
      ClaimsMoved(w, Apply(cfg, ships, w, a), worker);
    case _ =>
  }

  /** The worker moves on, and at most from Ready to the lookup. */
  ghost predicate MovesOn(w: World, next: World, worker: WorkerId) {
    && next.claims == w.claims && next.sent == w.sent
    && (|| next.pcs == w.pcs
        || (&& worker in next.pcs && next.pcs == w.pcs[worker := next.pcs[worker]]
            && var before, after := PcOf(w, worker), next.pcs[worker];
               || !(after.Ready? || after.LookingUp?)
               || (after.LookingUp? && before.Ready? && after.job == before.job && after.claim == before.claim)))
  }

  lemma ClaimsMoved(w: World, next: World, worker: WorkerId)
    requires ClaimsOk(w) && MovesOn(w, next, worker)
    ensures ClaimsOk(next)
  {
    ClaimsFreshAt(w, worker);
    hide OneEach, Unsent;
  }

  lemma ErrorEnds(cfg: Config, job: Id, attempt: nat, failure: Failure, random: real)
    ensures var pc := OnError(cfg, job, attempt, failure, random); pc.Idle? || pc.Settling?
  {
    hide RetryPolicy.BackoffMs, StatusText;
  }

  lemma RenewMoves(cfg: Config, ships: Shipments, w: World, a: Action)
    requires a.Renew?
    ensures MovesOn(w, Apply(cfg, ships, w, a), a.worker)
  {
    var pc := PcOf(w, a.worker);
    if pc.Ready? {
      ErrorEnds(cfg, pc.job, pc.attempt, Thrown(None, None, "Shipment context not found"), a.random);
      ErrorEnds(cfg, pc.job, pc.attempt, Refused("Shipment contains no mapped items"), a.random);
    }
    hide OnError, ExtendLease;
  }

  lemma CallFailedMoves(cfg: Config, ships: Shipments, w: World, a: Action)
    requires a.CallFailed?
    ensures MovesOn(w, Apply(cfg, ships, w, a), a.worker)
  {
    var pc := PcOf(w, a.worker);
    if pc.Ready? || pc.LookingUp? || pc.Creating? || pc.Created? { ErrorEnds(cfg, pc.job, pc.attempt, a.failure, a.random); }
    hide OnError;
  }

  lemma ReturnedMoves(cfg: Config, ships: Shipments, w: World, a: Action)
    requires a.Returned?
    ensures MovesOn(w, Apply(cfg, ships, w, a), a.worker)
  {
  }

  lemma ReportMoves(cfg: Config, ships: Shipments, w: World, a: Action)
    requires a.Report?
    ensures MovesOn(w, Apply(cfg, ships, w, a), a.worker)
  {
    var pc := PcOf(w, a.worker);
    if pc.Reporting? && !a.reply.Arrived? { ErrorEnds(cfg, pc.job, pc.attempt, a.reply.failure, a.random); }
    hide OnError, Success;
  }

  lemma SettleMoves(cfg: Config, ships: Shipments, w: World, a: Action)
    requires a.Settle?
    ensures MovesOn(w, Apply(cfg, ships, w, a), a.worker)
  {
    hide Settled;
  }

  lemma CrashMoves(cfg: Config, ships: Shipments, w: World, a: Action)
    requires a.Crash?
    ensures MovesOn(w, Apply(cfg, ships, w, a), a.worker)
  {
  }

  lemma {:induction false} RunClaims(cfg: Config, ships: Shipments, actions: seq<Action>)
    ensures ClaimsOk(Run(cfg, ships, actions))
  {
    if actions != [] {
      RunClaims(cfg, ships, actions[..|actions| - 1]);
      ClaimsStep(cfg, ships, Run(cfg, ships, actions[..|actions| - 1]), actions[|actions| - 1]);
    }
  }

  /** The claim the request was sent under is the job's latest and not over. */
  ghost predicate Current(w: World, r: Request) {
    r.claim == ClaimOf(w.claims, r.job) && OwnsJob(w.table, r.job, r.worker)
  }

  lemma OpsMakeNoOwner(cfg: Config, t: Table, job: Id, u: WorkerId, other: Id, worker: WorkerId, now: int)
    ensures CanClaim(t, other, now, cfg) && OwnsJob(Claim(t, other, worker, now, cfg), job, u) ==> OwnsJob(t, job, u) || (other == job && worker == u)
    ensures OwnsJob(ExtendLease(t, other, worker, now, cfg).0, job, u) ==> OwnsJob(t, job, u)
  {
  }

  lemma EndsMakeNoOwner(t: Table, job: Id, u: WorkerId, other: Id, worker: WorkerId, now: int, id: string, recovered: bool, settlement: Settlement)
    ensures OwnsJob(Success(t, other, worker, now, id, recovered).0, job, u) ==> OwnsJob(t, job, u)
    ensures OwnsJob(Settled(t, other, worker, now, settlement), job, u) ==> OwnsJob(t, job, u)
  {
  }

  lemma ClaimOwners(cfg: Config, ships: Shipments, w: World, a: Action, job: Id, u: WorkerId)
    requires a.Enqueue? || a.ClaimJob? || a.Heartbeat?
    requires OwnsJob(Apply(cfg, ships, w, a).table, job, u)
    ensures OwnsJob(w.table, job, u) || (a == ClaimJob(u, job) && PcOf(w, u) == Idle && CanClaim(w.table, job, w.now, cfg))
  {
    if a.ClaimJob? || a.Heartbeat? { OpsMakeNoOwner(cfg, w.table, job, u, a.job, a.worker, w.now); }
  }

  lemma RenewOwners(cfg: Config, ships: Shipments, w: World, worker: WorkerId, random: real, job: Id, u: WorkerId)
    requires OwnsJob(ApplyRenew(cfg, ships, w, worker, random).table, job, u)
    ensures OwnsJob(w.table, job, u)
  {
    var pc := PcOf(w, worker);
    if pc.Ready? { OpsMakeNoOwner(cfg, w.table, job, u, pc.job, worker, w.now); }
    hide OnError, ExtendLease, OwnsJob;
  }

  lemma ReportOwners(cfg: Config, w: World, worker: WorkerId, reply: Reply, random: real, job: Id, u: WorkerId)
    requires OwnsJob(ApplyReport(cfg, w, worker, reply, random).table, job, u)
    ensures OwnsJob(w.table, job, u)
  {
    var pc := PcOf(w, worker);
    if pc.Reporting? { EndsMakeNoOwner(w.table, job, u, pc.job, worker, w.now, pc.fulfillmentId, pc.recovered, FailWith("")); }
    hide OnError, Success, OwnsJob;
  }

  lemma SettleOwners(w: World, worker: WorkerId, reply: Reply, job: Id, u: WorkerId)
    requires OwnsJob(ApplySettle(w, worker, reply).table, job, u)
    ensures OwnsJob(w.table, job, u)
  {
    var pc := PcOf(w, worker);
    if pc.Settling? { EndsMakeNoOwner(w.table, job, u, pc.job, worker, w.now, "", false, pc.settlement); }
    hide Settled, OwnsJob;
  }

  lemma StepOwners(cfg: Config, ships: Shipments, w: World, a: Action, job: Id, u: WorkerId)
    requires a.Renew? || a.Report? || a.Settle?
    requires OwnsJob(Apply(cfg, ships, w, a).table, job, u)
    ensures OwnsJob(w.table, job, u)
  {
    hide OwnsJob, ApplyRenew, ApplyReport, ApplySettle;
    match a
    case Renew(worker, random) => RenewOwners(cfg, ships, w, worker, random, job, u);
    case Report(worker, reply, random) => ReportOwners(cfg, w, worker, reply, random, job, u);
    case Settle(worker, reply) => SettleOwners(w, worker, reply, job, u);
  }

  lemma OtherOwners(cfg: Config, ships: Shipments, w: World, a: Action)
    requires !(a.Enqueue? || a.ClaimJob? || a.Heartbeat? || a.Renew? || a.Report? || a.Settle?)
    ensures Apply(cfg, ships, w, a).table == w.table
  {
    LookupKeepsTable(cfg, ships, w, a);
    hide OnError, ApplyLookedUp, ApplyTakesEffect, ApplyOthers;
  }

  /** Only a claim makes an owner. */
  lemma OwnersStay(cfg: Config, ships: Shipments, w: World, a: Action, job: Id, u: WorkerId)
    requires OwnsJob(Apply(cfg, ships, w, a).table, job, u)
    ensures OwnsJob(w.table, job, u) || (a == ClaimJob(u, job) && PcOf(w, u) == Idle && CanClaim(w.table, job, w.now, cfg))
  {
    hide *;
    if a.Enqueue? || a.ClaimJob? || a.Heartbeat? {
      ClaimOwners(cfg, ships, w, a, job, u);
    } else if a.Renew? || a.Report? || a.Settle? {
      StepOwners(cfg, ships, w, a, job, u);
    } else {
      OtherOwners(cfg, ships, w, a);
    }
  }

  lemma CurrentBefore(cfg: Config, ships: Shipments, w: World, a: Action, r: Request)
    requires ClaimsOk(w) && r in w.sent && Current(Apply(cfg, ships, w, a), r)
    ensures Current(w, r)
  {
    OwnersStay(cfg, ships, w, a, r.job, r.worker);
    Bookkeeping(cfg, ships, w, a);
    if a.ClaimJob? { ClaimCounts(cfg, w, a.worker, a.job); }
    hide Apply, OwnsJob;
  }

  lemma ClaimCounts(cfg: Config, w: World, worker: WorkerId, job: Id)
    ensures var next := ApplyClaim(cfg, w, worker, job);
            && (forall j :: j != job ==> ClaimOf(next.claims, j) == ClaimOf(w.claims, j))
            && (ClaimOf(next.claims, job) > ClaimOf(w.claims, job) || next == w)
  {
  }

  /** Only a lookup adds a request, and only a claim is counted. */
  lemma Bookkeeping(cfg: Config, ships: Shipments, w: World, a: Action)
    ensures !a.LookedUp? ==> Apply(cfg, ships, w, a).sent <= w.sent
    ensures !a.ClaimJob? ==> Apply(cfg, ships, w, a).claims == w.claims
    ensures a.ClaimJob? ==> Apply(cfg, ships, w, a) == ApplyClaim(cfg, w, a.worker, a.job)
  {
    match a
    case Renew(_, _) => RenewMoves(cfg, ships, w, a); hide Apply;
    case CallFailed(_, _, _) => CallFailedMoves(cfg, ships, w, a); hide Apply;
    case Returned(_) => ReturnedMoves(cfg, ships, w, a); hide Apply;
    case Report(_, _, _) => ReportMoves(cfg, ships, w, a); hide Apply;
    case Settle(_, _) => SettleMoves(cfg, ships, w, a); hide Apply;
    case Crash(_) => CrashMoves(cfg, ships, w, a); hide Apply;
    case LookedUp(_, _, _, _) => hide PlanFor, AfterLookup, CreatedLines, FlatGroups;
    case _ =>
  }

  /** The action is a create request of the job taking effect. */
  ghost predicate Lands(ships: Shipments, w: World, a: Action, job: Id) {
    a.TakesEffect? && a.request.job == job && CanTakeEffect(ships, w, a.request)
  }

  lemma OrdersStay(cfg: Config, ships: Shipments, w: World, a: Action)
    requires !a.OthersFulfill? && !a.TakesEffect?
    ensures Apply(cfg, ships, w, a).orders == w.orders
  {
    hide PlanFor, OnError, AfterLookup, ExtendLease, Success, Settled, CreatedLines, FlatGroups;
  }

  lemma OthersProduce(ships: Shipments, w: World, orderId: string, added: seq<Fulfillment>, job: Id)
    requires job in ships
    ensures ProducedBy(ships, ApplyOthers(w, orderId, added).orders, job) == ProducedBy(ships, w.orders, job)
  {
    AppendGrows(ships, w.orders, orderId, OtherRecords(added), None);
    hide ProducedBy;
  }

  lemma LandingProduces(ships: Shipments, w: World, r: Request, id: string, job: Id)
    requires job in ships
    ensures ProducedBy(ships, ApplyTakesEffect(ships, w, r, id).orders, job)
            == ProducedBy(ships, w.orders, job) + if CanTakeEffect(ships, w, r) && r.job == job then 1 else 0
  {
    if CanTakeEffect(ships, w, r) {
      var orderId := ships[r.job].orderId;
      var record := Record(NewFulfillment(ships[r.job], id, r.lines), Some(r.job));
      var next := w.orders[orderId := OrderOf(w.orders, orderId) + [record]];
      assert ApplyTakesEffect(ships, w, r, id).orders == next;
      hide ApplyTakesEffect, CanTakeEffect, NewFulfillment;
      AppendGrows(ships, w.orders, orderId, [record], Some(r.job));
      if r.job == job { OneMore(OrderOf(w.orders, orderId), record, job); }
    }
  }

  lemma OneMore(records: seq<Record>, record: Record, job: Id)
    requires record.origin == Some(job)
    ensures Produced(records + [record], job) == Produced(records, job) + 1
  {
    assert (records + [record])[..|records|] == records;
  }

  lemma ProducedStep(cfg: Config, ships: Shipments, w: World, a: Action, job: Id)
    requires job in ships
    ensures ProducedBy(ships, Apply(cfg, ships, w, a).orders, job)
            == ProducedBy(ships, w.orders, job) + if Lands(ships, w, a, job) then 1 else 0
  {
    hide ProducedBy, CanTakeEffect, ApplyOthers, ApplyTakesEffect;
    if a.OthersFulfill? {
      OthersProduce(ships, w, a.orderId, a.added, job);
    } else if a.TakesEffect? {
      LandingProduces(ships, w, a.request, a.fulfillmentId, job);
    } else {
      OrdersStay(cfg, ships, w, a);
      hide Apply;
    }
  }

  lemma LandsIsIt(ships: Shipments, w: World, a: Action, r: Request)
    requires ClaimsOk(w) && r in w.sent && Current(w, r) && Lands(ships, w, a, r.job)
    ensures a.request == r
  {
    assert SameClaim(r, a.request);
  }

  /** The claim's one request cannot stay on its way when the claim's request takes effect. */
  lemma NothingElseLands(cfg: Config, ships: Shipments, w: World, a: Action, r: Request)
    requires ClaimsOk(w) && r in w.sent && r in Apply(cfg, ships, w, a).sent && Current(w, r)
    ensures !Lands(ships, w, a, r.job)
  {
    hide PlanFor, OnError, ClaimsOk, Current;
    if Lands(ships, w, a, r.job) { LandsIsIt(ships, w, a, r); }
  }

  lemma NewlySent(cfg: Config, ships: Shipments, w: World, a: Action, r: Request)
    requires r !in w.sent && r in Apply(cfg, ships, w, a).sent
    ensures Sends(ships, w, a) == Some(r) && !a.TakesEffect?
  {
    Bookkeeping(cfg, ships, w, a);
    if a.LookedUp? { hide PlanFor, AfterLookup, CreatedLines, FlatGroups; } else { hide Apply; }
  }

  lemma StartIsInitial(cfg: Config, ships: Shipments)
    ensures Run(cfg, ships, []) == INITIAL
  {
  }

  /** While a claim lasts, nothing is produced for its job between the sending of its request and its taking effect. */
  lemma {:induction false} SentAt(cfg: Config, ships: Shipments, actions: seq<Action>, r: Request) returns (i: nat)
    requires r.job in ships && r in Run(cfg, ships, actions).sent && Current(Run(cfg, ships, actions), r)
    ensures i < |actions| && Sends(ships, Run(cfg, ships, actions[..i]), actions[i]) == Some(r)
    ensures ProducedBy(ships, Run(cfg, ships, actions[..i]).orders, r.job) == ProducedBy(ships, Run(cfg, ships, actions).orders, r.job)
    decreases |actions|
  {
    assert actions != [];
    var n := |actions| - 1;
    var w, a := Run(cfg, ships, actions[..n]), actions[n];
    assert Run(cfg, ships, actions) == Apply(cfg, ships, w, a);
    hide Run, Apply, Sends, Current, Lands;
    RunClaims(cfg, ships, actions[..n]);
    ProducedStep(cfg, ships, w, a, r.job);
    if r in w.sent {
      CurrentBefore(cfg, ships, w, a, r);
      NothingElseLands(cfg, ships, w, a, r);
      i := SentAt(cfg, ships, actions[..n], r);
      assert actions[..n][..i] == actions[..i];
    } else {
      NewlySent(cfg, ships, w, a, r);
      NotLanding(ships, w, a, r.job);
      i := n;
    }
  }

  lemma NotLanding(ships: Shipments, w: World, a: Action, job: Id)
    requires !a.TakesEffect?
    ensures !Lands(ships, w, a, job)
  {
  }

  // ---- what holds of every run ----

  /** An earlier fulfilment of the job that its next lookup does not show, or that it could not recognise. */
  ghost predicate OutOfSight(ship: Shipment, job: Id, records: seq<Record>) {
    exists k :: 0 <= k < |records| && records[k].origin == Some(job) && (!HasTracking(ship.tracking) || k + 100 < |records|)
  }

  /** Action i sends a create request while an earlier fulfilment of the job is out of sight, and action j is
      that request taking effect. */
  ghost predicate CreatedAgain(cfg: Config, ships: Shipments, actions: seq<Action>, job: Id, i: nat, j: nat)
    requires job in ships && i < j < |actions|
  {
    var before := Run(cfg, ships, actions[..i]);
    var request := Sends(ships, before, actions[i]);
    && request.Some? && request.value.job == job
    && OutOfSight(ships[job], job, OrderOf(before.orders, ships[job].orderId))
    && actions[j].TakesEffect? && actions[j].request == request.value
    && CanTakeEffect(ships, Run(cfg, ships, actions[..j]), request.value)
  }

  lemma {:induction false} ProducedSome(records: seq<Record>, job: Id)
    ensures Produced(records, job) >= 1 <==> exists k :: 0 <= k < |records| && records[k].origin == Some(job)
  {
    if records != [] {
      var n := |records| - 1;
      ProducedSome(records[..n], job);
      if records[n].origin != Some(job) && exists k :: 0 <= k < |records| && records[k].origin == Some(job) {
        var k :| 0 <= k < |records| && records[k].origin == Some(job);
        assert records[..n][k].origin == Some(job);
      }
      if Produced(records[..n], job) >= 1 {
        var k :| 0 <= k < n && records[..n][k].origin == Some(job);
        assert records[k].origin == Some(job);
      }
    }
  }

  /** A lookup that decides to create has none of the job's fulfilments before its eyes. */
  lemma CreatesOnlyBlind(cfg: Config, ships: Shipments, w: World, a: Action, r: Request)
    requires Inv(cfg, ships, w) && Sends(ships, w, a) == Some(r) && r.job in ships && ProducedBy(ships, w.orders, r.job) >= 1
    ensures OutOfSight(ships[r.job], r.job, OrderOf(w.orders, ships[r.job].orderId))
  {
    var ship := ships[r.job];
    var records := OrderOf(w.orders, ship.orderId);
    SendsCreates(ships, w, a, r);
    PlanExact(Fulfillments(records), a.openOrders, ship.tracking, ship.requested);
    ProducedSome(records, r.job);
    var k :| 0 <= k < |records| && records[k].origin == Some(r.job);
    assert RecordsOk(ships, ship.orderId, records);
    hide PlanOf, Ships, LooksRight, NewestPage, Fulfillments, Tracks, Inv, Sends;
    if HasTracking(ship.tracking) && k + 100 >= |records| { OnThePage(records, k, ship.tracking); }
  }

  lemma OnThePage(records: seq<Record>, k: nat, tracking: Option<string>)
    requires HasTracking(tracking) && k < |records| <= k + 100 && records[k].f.tracking == [tracking]
    ensures exists f :: f in NewestPage(Fulfillments(records)) && Tracks(f, tracking.value)
  {
    assert NewestPage(Fulfillments(records))[|records| - 1 - k] == records[k].f;
    assert Some(tracking.value) == tracking;
    assert Tracks(records[k].f, tracking.value);
  }

  lemma SendsCreates(ships: Shipments, w: World, a: Action, r: Request)
    requires Sends(ships, w, a) == Some(r)
    ensures a.LookedUp? && a.found && r.job in ships
    ensures PlanOf(Some((Fulfillments(OrderOf(w.orders, ships[r.job].orderId)), a.openOrders)), ships[r.job].tracking, ships[r.job].requested).Create?
  {
    hide CreatedLines, FlatGroups, AllocationOf, RecoveryOf;
  }

  lemma {:induction false} ProducedGrows(cfg: Config, ships: Shipments, actions: seq<Action>, job: Id, i: nat)
    requires job in ships && i <= |actions|
    ensures ProducedBy(ships, Run(cfg, ships, actions[..i]).orders, job) <= ProducedBy(ships, Run(cfg, ships, actions).orders, job)
    decreases |actions|
  {
    if i == |actions| {
      assert actions[..i] == actions;
    } else {
      var n := |actions| - 1;
      ProducedGrows(cfg, ships, actions[..n], job, i);
      assert actions[..n][..i] == actions[..i];
      ProducedStep(cfg, ships, Run(cfg, ships, actions[..n]), actions[n], job);
    }
  }

  /** The moment the job's second fulfilment was made. */
  lemma {:induction false} SecondLands(cfg: Config, ships: Shipments, actions: seq<Action>, job: Id) returns (j: nat)
    requires job in ships && ProducedBy(ships, Run(cfg, ships, actions).orders, job) >= 2
    ensures j < |actions| && Lands(ships, Run(cfg, ships, actions[..j]), actions[j], job)
    ensures ProducedBy(ships, Run(cfg, ships, actions[..j]).orders, job) >= 1
    decreases |actions|
  {
    StartIsInitial(cfg, ships);
    assert actions != [];
    var n := |actions| - 1;
    ProducedStep(cfg, ships, Run(cfg, ships, actions[..n]), actions[n], job);
    if Lands(ships, Run(cfg, ships, actions[..n]), actions[n], job) {
      j := n;
    } else {
      j := SecondLands(cfg, ships, actions[..n], job);
      assert actions[..n][..j] == actions[..j];
    }
  }

  lemma LandingIsCurrent(ships: Shipments, w: World, r: Request)
    requires CanTakeEffect(ships, w, r)
    ensures r in w.sent && r.job in ships && Current(w, r)
  {
  }

  lemma TwiceMeansAgain(cfg: Config, ships: Shipments, actions: seq<Action>, job: Id)
    requires job in ships && ProducedBy(ships, Run(cfg, ships, actions).orders, job) >= 2
    ensures exists i: nat, j: nat :: i < j < |actions| && CreatedAgain(cfg, ships, actions, job, i, j)
  {
    hide Run, Apply, Sends, OutOfSight, Inv, CanTakeEffect, Current;
    var j := SecondLands(cfg, ships, actions, job);
    var r := actions[j].request;
    LandingIsCurrent(ships, Run(cfg, ships, actions[..j]), r);
    var i := SentAt(cfg, ships, actions[..j], r);
    assert actions[..j][..i] == actions[..i];
    RunOk(cfg, ships, actions[..i]);
    CreatesOnlyBlind(cfg, ships, Run(cfg, ships, actions[..i]), actions[i], r);
    assert CreatedAgain(cfg, ships, actions, job, i, j);
  }

  lemma AgainMeansTwice(cfg: Config, ships: Shipments, actions: seq<Action>, job: Id, i: nat, j: nat)
    requires job in ships && i < j < |actions| && CreatedAgain(cfg, ships, actions, job, i, j)
    ensures ProducedBy(ships, Run(cfg, ships, actions).orders, job) >= 2
  {
    hide Run, Apply, Sends, CanTakeEffect, RecordsOk;
    ProducedSome(OrderOf(Run(cfg, ships, actions[..i]).orders, ships[job].orderId), job);
    assert Lands(ships, Run(cfg, ships, actions[..j]), actions[j], job);
    ProducedGrows(cfg, ships, actions[..j], job, i);
    assert actions[..j][..i] == actions[..i];
    LandedCounts(cfg, ships, actions, job, j);
    ProducedGrows(cfg, ships, actions, job, j + 1);
  }

  lemma LandedCounts(cfg: Config, ships: Shipments, actions: seq<Action>, job: Id, j: nat)
    requires job in ships && j < |actions| && Lands(ships, Run(cfg, ships, actions[..j]), actions[j], job)
    ensures ProducedBy(ships, Run(cfg, ships, actions[..j + 1]).orders, job) == ProducedBy(ships, Run(cfg, ships, actions[..j]).orders, job) + 1
  {
    assert actions[..j + 1][..j] == actions[..j];
    hide Apply, Lands;
    ProducedStep(cfg, ships, Run(cfg, ships, actions[..j]), actions[j], job);
  }

  /** Over any run with crashes and lost responses, a shipment is fulfilled more than once exactly when some
      lookup sent a create request while an earlier fulfilment of the job was out of sight, beyond the newest
      hundred of its order or without a tracking number to know it by, and that request took effect. */
  lemma AtMostOneFulfillment(cfg: Config, ships: Shipments, actions: seq<Action>, job: Id)
    requires job in ships
    ensures Produced(OrderOf(Run(cfg, ships, actions).orders, ships[job].orderId), job) >= 2
            <==> exists i: nat, j: nat :: i < j < |actions| && CreatedAgain(cfg, ships, actions, job, i, j)
  {
    if ProducedBy(ships, Run(cfg, ships, actions).orders, job) >= 2 { TwiceMeansAgain(cfg, ships, actions, job); }
    if exists i: nat, j: nat :: i < j < |actions| && CreatedAgain(cfg, ships, actions, job, i, j) {
      var i: nat, j: nat :| i < j < |actions| && CreatedAgain(cfg, ships, actions, job, i, j);
      AgainMeansTwice(cfg, ships, actions, job, i, j);
    }
  }

  lemma OrderStep(cfg: Config, ships: Shipments, w: World, a: Action, orderId: string)
    ensures |OrderOf(w.orders, orderId)| <= |OrderOf(Apply(cfg, ships, w, a).orders, orderId)|
  {
    hide PlanFor, OnError, AfterLookup, Success, ExtendLease, Settled;
  }

  lemma {:induction false} OrdersGrow(cfg: Config, ships: Shipments, actions: seq<Action>, orderId: string, i: nat)
    requires i <= |actions|
    ensures |OrderOf(Run(cfg, ships, actions[..i]).orders, orderId)| <= |OrderOf(Run(cfg, ships, actions).orders, orderId)|
    decreases |actions|
  {
    if i == |actions| {
      assert actions[..i] == actions;
    } else {
      var n := |actions| - 1;
      OrdersGrow(cfg, ships, actions[..n], orderId, i);
      assert actions[..n][..i] == actions[..i];
      OrderStep(cfg, ships, Run(cfg, ships, actions[..n]), actions[n], orderId);
      hide Apply, OrderOf;
    }
  }

  /** So with a tracking number it never happens in an order that fits on one lookup page. */
  lemma OnePageOneFulfillment(cfg: Config, ships: Shipments, actions: seq<Action>, job: Id)
    requires job in ships && HasTracking(ships[job].tracking)
    requires |OrderOf(Run(cfg, ships, actions).orders, ships[job].orderId)| <= 100
    ensures Produced(OrderOf(Run(cfg, ships, actions).orders, ships[job].orderId), job) <= 1
  {
    AtMostOneFulfillment(cfg, ships, actions, job);
    if exists i: nat, j: nat :: i < j < |actions| && CreatedAgain(cfg, ships, actions, job, i, j) {
      var i: nat, j: nat :| i < j < |actions| && CreatedAgain(cfg, ships, actions, job, i, j);
      OrdersGrow(cfg, ships, actions, ships[job].orderId, i);
    }
  }
}
