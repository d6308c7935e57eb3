/**
 How an attempt of the fulfilment worker's `tick` begins and ends (src/fulfillment/worker.ts:5), in every run: the
 publish of a shipment that succeeds, and what an error of the worker that holds the job comes to: nothing after a lost
 lease, a wait with the attempt given back, another attempt, or the end of the job.
 */
module FulfillmentAttempts {
  import opened Lease
  import opened FulfillmentPublisher
  import opened FulfillmentStore
  import opened FulfillmentProtocol
  import opened RetryPolicy

  type Failure = FulfillmentProtocol.Failure

  /** The worker has the job's lock and its lease runs on. */
  predicate HasLease(w: World, worker: WorkerId, job: Id) {
    && job in w.table.jobs
    && var row := w.table.jobs[job].row;
    && row.status == RUNNING && row.lockedBy == Some(worker)
    && row.leaseExpiresAt.Some? && w.now < row.leaseExpiresAt.value
  }

  predicate Publishing(pc: Pc, job: Id, attempt: nat) {
    (pc.Ready? || pc.LookingUp? || pc.Creating? || pc.Created?) && pc.job == job && pc.attempt == attempt
  }

  /** The order lookup answers that the shipment is not to be published, or cannot be. */
  ghost predicate LookupRefuses(plan: Plan, message: string) {
    || (plan == OrderMissing && message == ORDER_NOT_FOUND)
    || (plan == TrackingConflict && message == TRACKING_TAKEN)
    || (plan == Refuse(QuantityExceedsRemaining) && message == QUANTITY_EXCEEDS)
    || (plan == Refuse(LineNotFound) && message == LINE_NOT_FOUND)
  }

  /** The worker's attempt throws f at this action: while it publishes, on reading the shipment, on a lookup that rules
      the shipment out, or when the result could not be stored. */
  ghost predicate Throws(ships: Shipments, w: World, worker: WorkerId, a: Action, f: Failure, job: Id, attempt: nat, random: real) {
    || (Publishing(PcOf(w, worker), job, attempt) && a == CallFailed(worker, f, random))
    || (PcOf(w, worker).Ready? && Publishing(PcOf(w, worker), job, attempt) && a == Renew(worker, random)
        && job !in ships && f == Thrown(None, None, "Shipment context not found"))
    || (PcOf(w, worker).Ready? && Publishing(PcOf(w, worker), job, attempt) && a == Renew(worker, random)
        && job in ships && ships[job].requested == map[] && f == Thrown(Some(422), None, "Shipment contains no mapped items"))
    || (PcOf(w, worker).LookingUp? && Publishing(PcOf(w, worker), job, attempt) && a.LookedUp? && a.worker == worker && a.random == random
        && job in ships && f.Thrown? && f.status == Some(422) && LookupRefuses(PlanFor(w, ships[job], a.found, a.openOrders), f.message))
    || (PcOf(w, worker).Reporting? && PcOf(w, worker).job == job && PcOf(w, worker).attempt == attempt
        && a == Report(worker, FailedBefore(f), random))
  }

  /** Nothing differs but the row of one job and the worker, which is done; nothing was created or sent. */
  ghost predicate OnlyThis(before: World, after: World, worker: WorkerId, job: Id) {
    && after == before.(table := after.table, pcs := after.pcs) && PcOf(after, worker) == Idle
    && after.table.jobs.Keys == before.table.jobs.Keys && job in before.table.jobs
    && (forall j :: j in before.table.jobs && j != job ==> after.table.jobs[j] == before.table.jobs[j])
    && after.table.jobs[job].fulfillmentId == before.table.jobs[job].fulfillmentId
  }

  /** Waiting for the connection or the rate limit: PENDING, with the attempt given back. */
  ghost predicate Waiting(before: World, after: World, worker: WorkerId, job: Id, delayMs: int, reason: string) {
    && OnlyThis(before, after, worker, job) && after.table.events == before.table.events && before.table.jobs[job].row.attempts >= 1
    && after.table.jobs[job].row
       == Row(PENDING, before.table.jobs[job].row.attempts - 1, before.now + delayMs, None, None, Some(reason))
  }

  ghost predicate PutBack(before: World, after: World, worker: WorkerId, job: Id, delayMs: int, code: string) {
    && OnlyThis(before, after, worker, job) && after.table.events == before.table.events
    && after.table.jobs[job].row == Row(PENDING, before.table.jobs[job].row.attempts, before.now + delayMs, None, None, Some(code))
  }

  ghost predicate GivenUp(before: World, after: World, worker: WorkerId, job: Id, message: string) {
    && OnlyThis(before, after, worker, job) && after.table.events == before.table.events + [JobEvent(job, FAILED_EVENT, worker, None)]
    && after.table.jobs[job].row == Row(FAILED, before.table.jobs[job].row.attempts, before.table.jobs[job].row.availableAt, None, None, Some(message))
  }

  /** An error without a status, a timeout, or a server error. */
  predicate Transient(f: Failure)
    requires f.Thrown?
  {
    f.status == None || f.status == Some(408) || (f.status.Some? && f.status.value >= 500)
  }

  /** "SHOPIFY_ERROR", or "SHOPIFY_" and the status; only statuses of transient errors are recorded so. */
  predicate IsCode(code: string, f: Failure)
    requires f.Thrown? && Transient(f)
  {
    if f.status.None? then code == "SHOPIFY_ERROR" else |code| >= 8 && code[..8] == "SHOPIFY_" && IsDecimal(code[8..], f.status.value)
  }

  predicate IsWait(delayMs: int, retryAfterMs: Option<int>, attempt: nat, random: real) {
    if retryAfterMs.Some? && retryAfterMs.value > 0 then delayMs == retryAfterMs.value else IsDelay(delayMs, attempt, random)
  }

  /** What comes of f. */
  ghost predicate Comes(cfg: Config, before: World, after: World, worker: WorkerId, job: Id, attempt: nat, f: Failure, random: real) {
    if f.LeaseLost? then after == before.(pcs := before.pcs[worker := Idle])
    else if f.ConnectionUnavailable? then Waiting(before, after, worker, job, 30_000, "WAITING_FOR_SHOPIFY_CONNECTION")
    else if f.status == Some(429) then
      exists delayMs :: IsWait(delayMs, f.retryAfterMs, attempt, random)
                        && Waiting(before, after, worker, job, delayMs, "WAITING_FOR_SHOPIFY_RATE_LIMIT")
    else if Transient(f) && attempt < cfg.maxAttempts then
      exists delayMs, code :: IsDelay(delayMs, attempt, random) && IsCode(code, f) && PutBack(before, after, worker, job, delayMs, code)
    else GivenUp(before, after, worker, job, f.message)
  }

  lemma StatusTextIs(f: Failure)
    requires f.Thrown? && Transient(f)
    ensures IsCode(StatusText(f.status), f)
  {
    if f.status.Some? {
      DecimalIsDecimal(f.status.value);
      assert StatusText(f.status)[8..] == DecimalText(f.status.value);
    }
    hide IsDecimal, DecimalText;
  }

  ghost predicate Decided(cfg: Config, pc: Pc, job: Id, attempt: nat, f: Failure, random: real) {
    if f.LeaseLost? then pc == Idle
    else
      && pc.Settling? && pc == Settling(job, attempt, pc.settlement)
      && var s := pc.settlement;
         if f.ConnectionUnavailable? then s == DeferWith(30_000, "WAITING_FOR_SHOPIFY_CONNECTION")
         else if f.status == Some(429) then
           s.DeferWith? && s.reason == "WAITING_FOR_SHOPIFY_RATE_LIMIT" && IsWait(s.delayMs, f.retryAfterMs, attempt, random)
         else if Transient(f) && attempt < cfg.maxAttempts then s.RetryWith? && IsDelay(s.delayMs, attempt, random) && IsCode(s.code, f)
         else s == FailWith(f.message)
  }

  lemma ErrorDecided(cfg: Config, job: Id, attempt: nat, f: Failure, random: real)
    ensures Decided(cfg, OnError(cfg, job, attempt, f, random), job, attempt, f, random)
  {
    BackoffIsDelay(attempt, random);
    if f.Thrown? && Transient(f) { StatusTextIs(f); }
    hide BackoffMs, IsDelay, IsCode, StatusText;
  }

  lemma ThrowStep(cfg: Config, ships: Shipments, w: World, worker: WorkerId, a: Action, f: Failure, job: Id, attempt: nat, random: real)
    requires Throws(ships, w, worker, a, f, job, attempt, random)
    ensures exists g :: SameFailure(f, g) && Apply(cfg, ships, w, a) == Goto(w, worker, OnError(cfg, job, attempt, g, random))
  {
    var g := if a.LookedUp? then Refused(f.message) else f;
    if a.LookedUp? {
      RefusedLookup(cfg, ships, w, a, f.message, job, attempt);
    } else {
      ThrowsAt(cfg, ships, w, worker, a, f, job, attempt, random);
    }
    hide OnError, Apply;
    assert SameFailure(f, g);
  }

  lemma ThrowsAt(cfg: Config, ships: Shipments, w: World, worker: WorkerId, a: Action, f: Failure, job: Id, attempt: nat, random: real)
    requires Throws(ships, w, worker, a, f, job, attempt, random) && !a.LookedUp?
    ensures Apply(cfg, ships, w, a) == Goto(w, worker, OnError(cfg, job, attempt, f, random))
  {
    hide OnError, Success, ExtendLease, LookupRefuses;
  }

  lemma RefusedLookup(cfg: Config, ships: Shipments, w: World, a: Action, message: string, job: Id, attempt: nat)
    requires a.LookedUp? && PcOf(w, a.worker).LookingUp? && Publishing(PcOf(w, a.worker), job, attempt) && job in ships
    requires LookupRefuses(PlanFor(w, ships[job], a.found, a.openOrders), message)
    ensures Apply(cfg, ships, w, a) == Goto(w, a.worker, OnError(cfg, job, attempt, Refused(message), a.random))
  {
    MessageIs(PlanFor(w, ships[job], a.found, a.openOrders), message);
    hide OnError, PlanFor, CreatedLines, FlatGroups, RefusalMessage, LookupRefuses;
  }

  lemma MessageIs(plan: Plan, message: string)
    requires LookupRefuses(plan, message)
    ensures !plan.Reuse? && !plan.Create? && RefusalMessage(plan) == message
  {
  }

  /** The retry-after header counts with a 429 only. */
  predicate SameFailure(f: Failure, g: Failure) {
    f == g || (f.Thrown? && g.Thrown? && f.status == g.status != Some(429) && f.message == g.message)
  }

  lemma SameDecision(cfg: Config, job: Id, attempt: nat, f: Failure, g: Failure, random: real)
    requires SameFailure(f, g)
    ensures OnError(cfg, job, attempt, f, random) == OnError(cfg, job, attempt, g, random)
  {
    hide BackoffMs, StatusText;
  }

  lemma SettlingEnds(cfg: Config, ships: Shipments, w: World, worker: WorkerId, job: Id, attempt: nat, s: Settlement)
    requires HasLease(w, worker, job) && w.table.jobs[job].row.attempts >= 1
    ensures var after := Apply(cfg, ships, Goto(w, worker, Settling(job, attempt, s)), Settle(worker, Arrived));
            && (s.DeferWith? ==> Waiting(w, after, worker, job, s.delayMs, s.reason))
            && (s.RetryWith? ==> PutBack(w, after, worker, job, s.delayMs, s.code))
            && (s.FailWith? ==> GivenUp(w, after, worker, job, s.message))
  {
    var after := Goto(w.(table := Settled(w.table, job, worker, w.now, s)), worker, Idle);
    SettleIs(cfg, ships, w, worker, job, attempt, s);
    hide Apply;
    match s
    case DeferWith(delayMs, reason) => assert Waiting(w, after, worker, job, delayMs, reason);
    case RetryWith(delayMs, code) => assert PutBack(w, after, worker, job, delayMs, code);
    case FailWith(message) => assert GivenUp(w, after, worker, job, message);
  }

  lemma SettleIs(cfg: Config, ships: Shipments, w: World, worker: WorkerId, job: Id, attempt: nat, s: Settlement)
    ensures Apply(cfg, ships, Goto(w, worker, Settling(job, attempt, s)), Settle(worker, Arrived))
         == Goto(w.(table := Settled(w.table, job, worker, w.now, s)), worker, Idle)
  {
    hide Settled;
  }

  lemma IdleSettles(cfg: Config, ships: Shipments, w: World, worker: WorkerId)
    ensures Apply(cfg, ships, Goto(w, worker, Idle), Settle(worker, Arrived)) == Goto(w, worker, Idle)
  {
  }

  lemma DecidedComes(cfg: Config, ships: Shipments, w: World, pc: Pc, worker: WorkerId, job: Id, attempt: nat, f: Failure, random: real)
    requires HasLease(w, worker, job) && w.table.jobs[job].row.attempts >= 1 && Decided(cfg, pc, job, attempt, f, random)
    ensures Comes(cfg, w, Apply(cfg, ships, Goto(w, worker, pc), Settle(worker, Arrived)), worker, job, attempt, f, random)
  {
    IdleSettles(cfg, ships, w, worker);
    if pc.Settling? { SettlingEnds(cfg, ships, w, worker, job, attempt, pc.settlement); }
    hide Waiting, PutBack, GivenUp, Apply, IsCode, IsDelay, IsWait, Transient, HasLease;
  }

  lemma RunNext(cfg: Config, ships: Shipments, actions: seq<Action>, a: Action)
    ensures Run(cfg, ships, actions + [a]) == Apply(cfg, ships, Run(cfg, ships, actions), a)
  {
    assert (actions + [a])[..|actions|] == actions;
  }

  lemma HolderAttempts(cfg: Config, ships: Shipments, w: World, worker: WorkerId, job: Id)
    requires Inv(cfg, ships, w) && HasLease(w, worker, job)
    ensures w.table.jobs[job].row.attempts >= 1
  {
    assert JobOk(cfg, ships, w.orders, job, w.table.jobs[job]);
  }

  /** After an error the worker that holds the job settles it as comes of the error; after a lost lease it leaves it. */
  lemma ErrorDecides(cfg: Config, ships: Shipments, actions: seq<Action>, worker: WorkerId, a: Action, f: Failure,
                     job: Id, attempt: nat, random: real)
    requires cfg.maxAttempts > 0 && HasLease(Run(cfg, ships, actions), worker, job)
    requires Throws(ships, Run(cfg, ships, actions), worker, a, f, job, attempt, random)
    ensures Comes(cfg, Run(cfg, ships, actions), Run(cfg, ships, actions + [a, Settle(worker, Arrived)]), worker, job, attempt, f, random)
  {
    RunOk(cfg, ships, actions);
    RunNext(cfg, ships, actions, a);
    RunNext(cfg, ships, actions + [a], Settle(worker, Arrived));
    assert actions + [a] + [Settle(worker, Arrived)] == actions + [a, Settle(worker, Arrived)];
    hide *;
    var w := Run(cfg, ships, actions);
    HolderAttempts(cfg, ships, w, worker, job);
    ThrowStep(cfg, ships, w, worker, a, f, job, attempt, random);
    var g :| SameFailure(f, g) && Apply(cfg, ships, w, a) == Goto(w, worker, OnError(cfg, job, attempt, g, random));
    SameDecision(cfg, job, attempt, f, g, random);
    ErrorDecided(cfg, job, attempt, f, random);
    DecidedComes(cfg, ships, w, OnError(cfg, job, attempt, f, random), worker, job, attempt, f, random);
  }

  /** The result of a publish that returns, or of a fulfilment found to be reused, is reported under the lease: the job
      has succeeded with that fulfilment, and an event says whether it was created or recovered. */
  lemma ReportSucceeds(cfg: Config, ships: Shipments, actions: seq<Action>, worker: WorkerId, job: Id, attempt: nat, id: string, recovered: bool, random: real)
    requires HasLease(Run(cfg, ships, actions), worker, job)
    requires PcOf(Run(cfg, ships, actions), worker) == Reporting(job, attempt, id, recovered)
    ensures var before, after := Run(cfg, ships, actions), Run(cfg, ships, actions + [Report(worker, Arrived, random)]);
            && after == before.(table := after.table, pcs := before.pcs[worker := Idle])
            && after.table.jobs == before.table.jobs[job := FulfillmentStore.Job(
                 Row(SUCCEEDED, before.table.jobs[job].row.attempts, before.table.jobs[job].row.availableAt, None, None, before.table.jobs[job].row.lastError),
                 Some(id))]
            && after.table.events == before.table.events + [JobEvent(job, if recovered then RECOVERED else CREATED, worker, Some(id))]
  {
    RunNext(cfg, ships, actions, Report(worker, Arrived, random));
    hide Run, OnError;
    assert Holds(Run(cfg, ships, actions).table, job, worker, Run(cfg, ships, actions).now);
  }

  // ---- an attempt that succeeds ----

  /** Due, or taken by a worker whose lease ran out. */
  predicate Takeable(cfg: Config, w: World, job: Id) {
    && job in w.table.jobs
    && var row := w.table.jobs[job].row;
    || (row.status == PENDING && row.attempts < cfg.maxAttempts && row.availableAt <= w.now)
    || (row.status == RUNNING && row.attempts <= cfg.maxAttempts && row.leaseExpiresAt.Some? && row.leaseExpiresAt.value <= w.now)
  }

  /** The job is the worker's under a new lease, with one more attempt. */
  function TakenTable(cfg: Config, w: World, worker: WorkerId, job: Id): Table
    requires job in w.table.jobs
  {
    var was := w.table.jobs[job];
    w.table.(jobs := w.table.jobs[job := was.(row := Row(
      RUNNING, was.row.attempts + 1, was.row.availableAt, Some(worker), Some(w.now + cfg.leaseMs), was.row.lastError))])
  }

  /** In the second step the lease is renewed, and the lookup follows. */
  lemma ClaimAndRenew(cfg: Config, ships: Shipments, w: World, worker: WorkerId, job: Id, random: real)
    requires PcOf(w, worker) == Idle && Takeable(cfg, w, job) && cfg.leaseMs > 0 && job in ships && ships[job].requested != map[]
    ensures var next := Apply(cfg, ships, Apply(cfg, ships, w, ClaimJob(worker, job)), Renew(worker, random));
            var claim := ClaimOf(w.claims, job) + 1;
            && next.table == TakenTable(cfg, w, worker, job) && next.now == w.now && next.orders == w.orders && next.sent == w.sent
            && ClaimOf(next.claims, job) == claim && PcOf(next, worker) == LookingUp(job, w.table.jobs[job].row.attempts + 1, claim)
            && HasLease(next, worker, job)
  {
    ClaimIs(cfg, ships, w, worker, job);
    var claimed := Apply(cfg, ships, w, ClaimJob(worker, job));
    hide Apply, OnError;
    RenewIs(cfg, ships, claimed, worker, job, random);
  }

  lemma ClaimIs(cfg: Config, ships: Shipments, w: World, worker: WorkerId, job: Id)
    requires PcOf(w, worker) == Idle && Takeable(cfg, w, job)
    ensures var next := Apply(cfg, ships, w, ClaimJob(worker, job));
            var claim := ClaimOf(w.claims, job) + 1;
            && next == Goto(w.(table := TakenTable(cfg, w, worker, job), claims := w.claims[job := claim]), worker,
                            Ready(job, w.table.jobs[job].row.attempts + 1, claim))
            && ClaimOf(next.claims, job) == claim
  {
    assert CanClaim(w.table, job, w.now, cfg);
  }

  lemma RenewIs(cfg: Config, ships: Shipments, w: World, worker: WorkerId, job: Id, random: real)
    requires PcOf(w, worker).Ready? && PcOf(w, worker).job == job && job in ships && ships[job].requested != map[]
    requires HasLease(w, worker, job) && w.table.jobs[job].row.leaseExpiresAt == Some(w.now + cfg.leaseMs)
    ensures Apply(cfg, ships, w, Renew(worker, random)) == Goto(w, worker, LookingUp(job, PcOf(w, worker).attempt, PcOf(w, worker).claim))
  {
    hide OnError;
    assert Holds(w.table, job, worker, w.now);
    assert w.table.jobs[job := w.table.jobs[job]] == w.table.jobs;
  }

  /** What the created fulfilment is: the requested quantities, under the shipment's tracking number if it has one. */
  ghost predicate IsPublished(record: Record, id: string, shipment: Shipment, job: Id) {
    && record.f.id == id && record.origin == Some(job) && Ships(record.f.lines, shipment.requested)
    && record.f.tracking == if Numbered(shipment.tracking) then [shipment.tracking] else []
  }

  /** The job has succeeded with this fulfilment, and its event says how. */
  ghost predicate SucceededWith(before: Table, after: Table, worker: WorkerId, job: Id, id: string, event: EventType) {
    && job in before.jobs
    && after.jobs == before.jobs[job := FulfillmentStore.Job(
         Row(SUCCEEDED, before.jobs[job].row.attempts + 1, before.jobs[job].row.availableAt, None, None, before.jobs[job].row.lastError), Some(id))]
    && after.events == before.events + [JobEvent(job, event, worker, Some(id))]
  }

  /** The lookup shows that the shipment can be published: nobody's fulfilment among the newest hundred carries its number,
      and the open orders have enough of every line. */
  ghost predicate Publishable(w: World, shipment: Shipment, openOrders: seq<FulfillmentOrder>) {
    && !Carried(Fulfillments(OrderOf(w.orders, shipment.orderId)), shipment.tracking)
    && !TooMuch(Flat(openOrders), shipment.requested) && !NotThere(Flat(openOrders), shipment.requested)
  }

  /** The create request that the lookup sends. */
  ghost function RequestFor(w: World, worker: WorkerId, job: Id, claim: nat, ships: Shipments, openOrders: seq<FulfillmentOrder>): Request
    requires job in ships && PlanFor(w, ships[job], true, openOrders).Create?
  {
    Request(worker, job, claim, CreatedLines(FlatGroups(PlanFor(w, ships[job], true, openOrders).groups)))
  }

  lemma LookupCreates(cfg: Config, ships: Shipments, w: World, worker: WorkerId, job: Id, attempt: nat, claim: nat,
                      openOrders: seq<FulfillmentOrder>, random: real)
    requires PcOf(w, worker) == LookingUp(job, attempt, claim) && job in ships && Publishable(w, ships[job], openOrders)
    ensures PlanFor(w, ships[job], true, openOrders).Create?
    ensures var r := RequestFor(w, worker, job, claim, ships, openOrders);
            && Ships(r.lines, ships[job].requested)
            && Apply(cfg, ships, w, LookedUp(worker, true, openOrders, random))
               == Goto(w.(sent := w.sent + {r}), worker, Creating(job, attempt, claim))
  {
    var all := Fulfillments(OrderOf(w.orders, ships[job].orderId));
    RefusedExactly(all, openOrders, ships[job].tracking, ships[job].requested);
    PlanExact(all, openOrders, ships[job].tracking, ships[job].requested);
    hide PlanOf, CreatedLines, FlatGroups, Ships, Fulfillments, Carried, TooMuch, NotThere, OnError;
  }

  lemma CreateTakesEffect(cfg: Config, ships: Shipments, w: World, r: Request, attempt: nat, id: string)
    requires PcOf(w, r.worker) == Creating(r.job, attempt, r.claim) && r in w.sent && r.job in ships
    requires HasLease(w, r.worker, r.job) && ClaimOf(w.claims, r.job) == r.claim && Ships(r.lines, ships[r.job].requested)
    ensures var next := Apply(cfg, ships, Apply(cfg, ships, w, TakesEffect(r, id)), Returned(r.worker));
            var orderId := ships[r.job].orderId;
            && next.table == w.table && next.now == w.now && next.sent == w.sent - {r}
            && PcOf(next, r.worker) == Reporting(r.job, attempt, id, false)
            && |OrderOf(next.orders, orderId)| == |OrderOf(w.orders, orderId)| + 1
            && next.orders == w.orders[orderId := OrderOf(next.orders, orderId)]
            && OrderOf(w.orders, orderId) < OrderOf(next.orders, orderId)
            && IsPublished(OrderOf(next.orders, orderId)[|OrderOf(w.orders, orderId)|], id, ships[r.job], r.job)
  {
    assert Holds(w.table, r.job, r.worker, w.now);
    hide Ships;
  }

  lemma ReportIs(cfg: Config, ships: Shipments, w: World, worker: WorkerId, job: Id, attempt: nat, id: string, recovered: bool, random: real)
    requires PcOf(w, worker) == Reporting(job, attempt, id, recovered) && HasLease(w, worker, job)
    ensures var next := Apply(cfg, ships, w, Report(worker, Arrived, random));
            var row := w.table.jobs[job].row;
            && next == Goto(w.(table := next.table), worker, Idle)
            && next.table.jobs == w.table.jobs[job := FulfillmentStore.Job(
                 Row(SUCCEEDED, row.attempts, row.availableAt, None, None, row.lastError), Some(id))]
            && next.table.events == w.table.events + [JobEvent(job, if recovered then RECOVERED else CREATED, worker, Some(id))]
  {
    hide OnError;
    assert Holds(w.table, job, worker, w.now);
  }

  lemma TakenThenSucceeded(cfg: Config, w: World, after: Table, worker: WorkerId, job: Id, id: string, event: EventType)
    requires job in w.table.jobs
    requires var taken := TakenTable(cfg, w, worker, job);
             && after.events == taken.events + [JobEvent(job, event, worker, Some(id))]
             && after.jobs == taken.jobs[job := FulfillmentStore.Job(
                  Row(SUCCEEDED, taken.jobs[job].row.attempts, taken.jobs[job].row.availableAt, None, None, taken.jobs[job].row.lastError), Some(id))]
    ensures SucceededWith(w.table, after, worker, job, id, event)
  {
    var taken := TakenTable(cfg, w, worker, job);
    assert taken.jobs[job].row.attempts == w.table.jobs[job].row.attempts + 1;
  }

  /** Claimed, looked up, created, answered and reported within its lease: the shipment's order has one more fulfilment, of
      exactly the requested quantities, and the job has succeeded with it. */
  lemma PublishSucceeds(cfg: Config, ships: Shipments, actions: seq<Action>, worker: WorkerId, job: Id, openOrders: seq<FulfillmentOrder>,
                        id: string, random: real) returns (r: Request)
    requires PcOf(Run(cfg, ships, actions), worker) == Idle && Takeable(cfg, Run(cfg, ships, actions), job)
    requires cfg.leaseMs > 0 && job in ships && ships[job].requested != map[] && Publishable(Run(cfg, ships, actions), ships[job], openOrders)
    ensures r.worker == worker && r.job == job && Ships(r.lines, ships[job].requested)
    ensures var before, orderId := Run(cfg, ships, actions), ships[job].orderId;
            var after := Run(cfg, ships, actions + [ClaimJob(worker, job), Renew(worker, random), LookedUp(worker, true, openOrders, random),
                                                    TakesEffect(r, id), Returned(worker), Report(worker, Arrived, random)]);
            && SucceededWith(before.table, after.table, worker, job, id, CREATED) && PcOf(after, worker) == Idle
            && OrderOf(before.orders, orderId) < OrderOf(after.orders, orderId)
            && |OrderOf(after.orders, orderId)| == |OrderOf(before.orders, orderId)| + 1
            && IsPublished(OrderOf(after.orders, orderId)[|OrderOf(before.orders, orderId)|], id, ships[job], job)
  {
    var w := Run(cfg, ships, actions);
    var leased := Apply(cfg, ships, Apply(cfg, ships, w, ClaimJob(worker, job)), Renew(worker, random));
    r := Published(cfg, ships, w, worker, job, openOrders, id, random);
    SixRun(cfg, ships, actions, ClaimJob(worker, job), Renew(worker, random), LookedUp(worker, true, openOrders, random),
           TakesEffect(r, id), Returned(worker), Report(worker, Arrived, random));
    hide *;
  }

  lemma SixRun(cfg: Config, ships: Shipments, actions: seq<Action>, a: Action, b: Action, c: Action, d: Action, e: Action, f: Action)
    ensures Run(cfg, ships, actions + [a, b, c, d, e, f])
         == Apply(cfg, ships, Apply(cfg, ships, Apply(cfg, ships, Apply(cfg, ships, Apply(cfg, ships, Apply(cfg, ships,
              Run(cfg, ships, actions), a), b), c), d), e), f)
  {
    hide Run, Apply;
    RunNext(cfg, ships, actions, a);
    RunNext(cfg, ships, actions + [a], b);
    RunNext(cfg, ships, actions + [a] + [b], c);
    RunNext(cfg, ships, actions + [a] + [b] + [c], d);
    RunNext(cfg, ships, actions + [a] + [b] + [c] + [d], e);
    RunNext(cfg, ships, actions + [a] + [b] + [c] + [d] + [e], f);
    assert actions + [a, b, c, d, e, f] == actions + [a] + [b] + [c] + [d] + [e] + [f];
  }

  lemma Published(cfg: Config, ships: Shipments, w: World, worker: WorkerId, job: Id, openOrders: seq<FulfillmentOrder>,
                  id: string, random: real) returns (r: Request)
    requires PcOf(w, worker) == Idle && Takeable(cfg, w, job)
    requires cfg.leaseMs > 0 && job in ships && ships[job].requested != map[] && Publishable(w, ships[job], openOrders)
    ensures r.worker == worker && r.job == job && Ships(r.lines, ships[job].requested)
    ensures var leased := Apply(cfg, ships, Apply(cfg, ships, w, ClaimJob(worker, job)), Renew(worker, random));
            var sent := Apply(cfg, ships, leased, LookedUp(worker, true, openOrders, random));
            var answered := Apply(cfg, ships, Apply(cfg, ships, sent, TakesEffect(r, id)), Returned(worker));
            var after, orderId := Apply(cfg, ships, answered, Report(worker, Arrived, random)), ships[job].orderId;
            && SucceededWith(w.table, after.table, worker, job, id, CREATED) && PcOf(after, worker) == Idle
            && OrderOf(w.orders, orderId) < OrderOf(after.orders, orderId)
            && |OrderOf(after.orders, orderId)| == |OrderOf(w.orders, orderId)| + 1
            && IsPublished(OrderOf(after.orders, orderId)[|OrderOf(w.orders, orderId)|], id, ships[job], job)
  {
    ClaimAndRenew(cfg, ships, w, worker, job, random);
    hide Apply, IsPublished, SucceededWith, RequestFor, Publishable, TakenTable, Takeable, Ships;
    var leased := Apply(cfg, ships, Apply(cfg, ships, w, ClaimJob(worker, job)), Renew(worker, random));
    var attempt, claim := w.table.jobs[job].row.attempts + 1, ClaimOf(w.claims, job) + 1;
    SamePublishable(w, leased, ships[job], openOrders);
    LookupCreates(cfg, ships, leased, worker, job, attempt, claim, openOrders, random);
    r := RequestFor(leased, worker, job, claim, ships, openOrders);
    RequestIs(leased, worker, job, claim, ships, openOrders);
    var sent := Goto(leased.(sent := leased.sent + {r}), worker, Creating(job, attempt, claim));
    CreateTakesEffect(cfg, ships, sent, r, attempt, id);
    var answered := Apply(cfg, ships, Apply(cfg, ships, sent, TakesEffect(r, id)), Returned(worker));
    ReportIs(cfg, ships, answered, worker, job, attempt, id, false, random);
    TakenThenSucceeded(cfg, w, Apply(cfg, ships, answered, Report(worker, Arrived, random)).table, worker, job, id, CREATED);
  }

  lemma SamePublishable(w: World, next: World, shipment: Shipment, openOrders: seq<FulfillmentOrder>)
    requires next.orders == w.orders && Publishable(w, shipment, openOrders)
    ensures Publishable(next, shipment, openOrders)
  {
    hide Carried, TooMuch, NotThere;
  }

  lemma RequestIs(w: World, worker: WorkerId, job: Id, claim: nat, ships: Shipments, openOrders: seq<FulfillmentOrder>)
    requires job in ships && PlanFor(w, ships[job], true, openOrders).Create?
    ensures var r := RequestFor(w, worker, job, claim, ships, openOrders); r.worker == worker && r.job == job && r.claim == claim
  {
    hide PlanFor, CreatedLines, FlatGroups;
  }

  // ---- an attempt that finds the shipment published before ----

  /** This fulfilment of the order carries the shipment's number and shows exactly the requested lines. */
  ghost predicate Recoverable(w: World, shipment: Shipment, id: string) {
    Shows(Fulfillments(OrderOf(w.orders, shipment.orderId)), shipment.tracking, shipment.requested, id)
  }

  /** One of the newest hundred. */
  ghost predicate Shows(all: seq<Fulfillment>, tracking: Option<string>, requested: Requested, id: string) {
    && Numbered(tracking)
    && exists k :: 0 <= k < |all| && |all| <= k + 100 && all[k].id == id && Tracks(all[k], tracking.value) && VisibleLines(all[k]) == requested
  }

  lemma PlanReuses(all: seq<Fulfillment>, openOrders: seq<FulfillmentOrder>, tracking: Option<string>, requested: Requested, some: string)
    returns (id: string)
    requires Shows(all, tracking, requested, some)
    ensures Shows(all, tracking, requested, id) && PlanOf(Some((all, openOrders)), tracking, requested) == Reuse(id)
  {
    var number := tracking.value;
    hide Tracks, VisibleLines, AllocationOf, NewestPage, RecoveryOf;
    OnThePage(all);
    RecoveryExact(NewestPage(all), number, requested);
    id := RecoveryOf(NewestPage(all), number, requested).id;
    var f :| f in NewestPage(all) && f.id == id && Tracks(f, number) && VisibleLines(f) == requested;
  }

  lemma ReuseReports(cfg: Config, ships: Shipments, w: World, worker: WorkerId, job: Id, attempt: nat, claim: nat,
                     openOrders: seq<FulfillmentOrder>, random: real, id: string)
    requires PcOf(w, worker) == LookingUp(job, attempt, claim) && job in ships
    requires PlanFor(w, ships[job], true, openOrders) == Reuse(id)
    ensures Apply(cfg, ships, w, LookedUp(worker, true, openOrders, random)) == Goto(w, worker, Reporting(job, attempt, id, true))
  {
    hide PlanFor, OnError;
  }

  lemma LookupReuses(cfg: Config, ships: Shipments, w: World, worker: WorkerId, job: Id, attempt: nat, claim: nat,
                     openOrders: seq<FulfillmentOrder>, random: real, some: string) returns (id: string)
    requires PcOf(w, worker) == LookingUp(job, attempt, claim) && job in ships && Recoverable(w, ships[job], some)
    ensures Recoverable(w, ships[job], id)
    ensures Apply(cfg, ships, w, LookedUp(worker, true, openOrders, random)) == Goto(w, worker, Reporting(job, attempt, id, true))
  {
    hide Shows, PlanOf, Apply;
    id := PlanReuses(Fulfillments(OrderOf(w.orders, ships[job].orderId)), openOrders, ships[job].tracking, ships[job].requested, some);
    ReuseReports(cfg, ships, w, worker, job, attempt, claim, openOrders, random, id);
  }

  lemma OnThePage(all: seq<Fulfillment>)
    ensures forall f :: f in NewestPage(all) <==> exists k :: 0 <= k < |all| && |all| <= k + 100 && all[k] == f
  {
    var page := NewestPage(all);
    forall f ensures f in page <==> exists k :: 0 <= k < |all| && |all| <= k + 100 && all[k] == f {
      if f in page {
        var i :| 0 <= i < |page| && page[i] == f;
        assert all[|all| - 1 - i] == f;
      }
      if k :| 0 <= k < |all| && |all| <= k + 100 && all[k] == f { assert page[|all| - 1 - k] == f; }
    }
  }

  /** Claimed, looked up and reported within its lease: nothing is created, and the job has succeeded with a fulfilment that
      was there. */
  lemma RecoverySucceeds(cfg: Config, ships: Shipments, actions: seq<Action>, worker: WorkerId, job: Id, openOrders: seq<FulfillmentOrder>,
                         some: string, random: real) returns (id: string)
    requires PcOf(Run(cfg, ships, actions), worker) == Idle && Takeable(cfg, Run(cfg, ships, actions), job)
    requires cfg.leaseMs > 0 && job in ships && ships[job].requested != map[] && Recoverable(Run(cfg, ships, actions), ships[job], some)
    ensures Recoverable(Run(cfg, ships, actions), ships[job], id)
    ensures var before := Run(cfg, ships, actions);
            var after := Run(cfg, ships, actions + [ClaimJob(worker, job), Renew(worker, random), LookedUp(worker, true, openOrders, random),
                                                    Report(worker, Arrived, random)]);
            && SucceededWith(before.table, after.table, worker, job, id, RECOVERED) && PcOf(after, worker) == Idle
            && after.orders == before.orders && after.sent == before.sent
  {
    id := Recovered(cfg, ships, Run(cfg, ships, actions), worker, job, openOrders, some, random);
    FourRun(cfg, ships, actions, ClaimJob(worker, job), Renew(worker, random), LookedUp(worker, true, openOrders, random),
            Report(worker, Arrived, random));
    hide *;
  }

  lemma FourRun(cfg: Config, ships: Shipments, actions: seq<Action>, a: Action, b: Action, c: Action, d: Action)
    ensures Run(cfg, ships, actions + [a, b, c, d])
         == Apply(cfg, ships, Apply(cfg, ships, Apply(cfg, ships, Apply(cfg, ships, Run(cfg, ships, actions), a), b), c), d)
  {
    hide Run, Apply;
    RunNext(cfg, ships, actions, a);
    RunNext(cfg, ships, actions + [a], b);
    RunNext(cfg, ships, actions + [a] + [b], c);
    RunNext(cfg, ships, actions + [a] + [b] + [c], d);
    assert actions + [a, b, c, d] == actions + [a] + [b] + [c] + [d];
  }

  lemma Recovered(cfg: Config, ships: Shipments, w: World, worker: WorkerId, job: Id, openOrders: seq<FulfillmentOrder>,
                  some: string, random: real) returns (id: string)
    requires PcOf(w, worker) == Idle && Takeable(cfg, w, job)
    requires cfg.leaseMs > 0 && job in ships && ships[job].requested != map[] && Recoverable(w, ships[job], some)
    ensures Recoverable(w, ships[job], id)
    ensures var leased := Apply(cfg, ships, Apply(cfg, ships, w, ClaimJob(worker, job)), Renew(worker, random));
            var after := Apply(cfg, ships, Apply(cfg, ships, leased, LookedUp(worker, true, openOrders, random)), Report(worker, Arrived, random));
            && SucceededWith(w.table, after.table, worker, job, id, RECOVERED) && PcOf(after, worker) == Idle
            && after.orders == w.orders && after.sent == w.sent
  {
    ClaimAndRenew(cfg, ships, w, worker, job, random);
    var leased := Apply(cfg, ships, Apply(cfg, ships, w, ClaimJob(worker, job)), Renew(worker, random));
    assert forall i: string :: Recoverable(leased, ships[job], i) == Recoverable(w, ships[job], i);
    hide Apply, SucceededWith, Recoverable, TakenTable, Takeable;
    var attempt, claim := w.table.jobs[job].row.attempts + 1, ClaimOf(w.claims, job) + 1;
    id := LookupReuses(cfg, ships, leased, worker, job, attempt, claim, openOrders, random, some);
    var found := Goto(leased, worker, Reporting(job, attempt, id, true));
    ReportIs(cfg, ships, found, worker, job, attempt, id, true, random);
    TakenThenSucceeded(cfg, w, Apply(cfg, ships, found, Report(worker, Arrived, random)).table, worker, job, id, RECOVERED);
  }

  // ---- which open jobs can still be taken ----

  ghost predicate Leased(t: Table) {
    forall job :: job in t.jobs && t.jobs[job].row.status == RUNNING ==> t.jobs[job].row.leaseExpiresAt.Some?
  }

  lemma OpsKeepLeased(cfg: Config, t: Table, job: Id, worker: WorkerId, now: int, id: string, recovered: bool, s: Settlement)
    requires Leased(t)
    ensures CanClaim(t, job, now, cfg) ==> Leased(Claim(t, job, worker, now, cfg))
    ensures Leased(ExtendLease(t, job, worker, now, cfg).0)
    ensures Leased(Success(t, job, worker, now, id, recovered).0)
    ensures Leased(Settled(t, job, worker, now, s))
  {
  }

  lemma StepKeepsLeased(cfg: Config, ships: Shipments, w: World, a: Action)
    requires Leased(w.table)
    ensures Leased(Apply(cfg, ships, w, a).table)
  {
    var none := FailWith("");
    LookupKeepsTable(cfg, ships, w, a);
    if a.Enqueue? { assert Leased(ApplyEnqueue(w, a.job).table); }
    hide OnError, ApplyLookedUp, ApplyTakesEffect, ApplyOthers, ApplyEnqueue, Leased, Claim, ExtendLease, Success, CanClaim, Settled;
    match a
    case ClaimJob(worker, job) => OpsKeepLeased(cfg, w.table, job, worker, w.now, "", false, none);
    case Heartbeat(worker, job) => OpsKeepLeased(cfg, w.table, job, worker, w.now, "", false, none);
    case Renew(worker, _) =>
      var pc := PcOf(w, worker);
      if pc.Ready? { OpsKeepLeased(cfg, w.table, pc.job, worker, w.now, "", false, none); }
    case Report(worker, _, _) =>
      var pc := PcOf(w, worker);
      if pc.Reporting? { OpsKeepLeased(cfg, w.table, pc.job, worker, w.now, pc.fulfillmentId, pc.recovered, none); }
    case Settle(worker, _) =>
      var pc := PcOf(w, worker);
      if pc.Settling? { OpsKeepLeased(cfg, w.table, pc.job, worker, w.now, "", false, pc.settlement); }
    case _ =>
  }

  lemma {:induction false} RunLeased(cfg: Config, ships: Shipments, actions: seq<Action>)
    ensures Leased(Run(cfg, ships, actions).table)
  {
    if actions != [] {
      RunLeased(cfg, ships, actions[..|actions| - 1]);
      hide Leased, Apply;
      StepKeepsLeased(cfg, ships, Run(cfg, ships, actions[..|actions| - 1]), actions[|actions| - 1]);
    }
  }

  /** In every run an open job can be claimed at some time exactly while its attempts stay below the maximum if it waits,
      and do not exceed it if a worker has it: the claim past the last attempt is the last one. */
  lemma OpenIsClaimable(cfg: Config, ships: Shipments, actions: seq<Action>, job: Id)
    requires job in Run(cfg, ships, actions).table.jobs && Run(cfg, ships, actions).table.jobs[job].row.status in {PENDING, RUNNING}
    ensures var t := Run(cfg, ships, actions).table;
            var row := t.jobs[job].row;
            (exists now :: CanClaim(t, job, now, cfg)) <==> if row.status == PENDING then row.attempts < cfg.maxAttempts else row.attempts <= cfg.maxAttempts
  {
    RunLeased(cfg, ships, actions);
    hide Run;
    var t := Run(cfg, ships, actions).table;
    var row := t.jobs[job].row;
    var now := if row.status == PENDING then row.availableAt else row.leaseExpiresAt.value;
    assert (if row.status == PENDING then row.attempts < cfg.maxAttempts else row.attempts <= cfg.maxAttempts) ==> CanClaim(t, job, now, cfg);
  }
}
