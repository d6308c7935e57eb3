/**
 Many fulfilment workers, their job store and Shopify (src/fulfillment/worker.ts). A run is a
 list of actions. A publish call is three of them: the order lookup that sends its create request,
 the moment the request takes effect at Shopify, and its end for the caller, who may also crash or
 see an error at any point. A request once sent stays on its way whatever happens to its caller, and
 may take effect later or never; it takes effect only while the claim it was sent under is the job's
 latest and still holds its lease. This is the assumption that a publish call does not outlive its lease.
 */
module FulfillmentProtocol {
  import opened Lease
  import opened FulfillmentPublisher
  import opened FulfillmentStore
  import RetryPolicy

  /** The rows a job's context is read from; they do not change during a run. */
  datatype Shipment = Shipment(orderId: string, tracking: Option<string>, requested: Requested)

  type Shipments = map<Id, Shipment>

  datatype Failure = LeaseLost | ConnectionUnavailable | Thrown(status: Option<int>, retryAfterMs: Option<int>, message: string)

  datatype Settlement =
    | DeferWith(delayMs: int, reason: string)
    | RetryWith(delayMs: int, code: string)
    | FailWith(message: string)

  /** A create request on its way. `claim` numbers the job's claims: the attempt would not do, since a
      deferral gives it back. */
  datatype Request = Request(worker: WorkerId, job: Id, claim: nat, lines: seq<(LineId, int)>)

  /** Where a worker stands inside `tick`. A crashed worker never returns: a restarted process has a new id. */
  datatype Pc =
    | Idle
    | Ready(job: Id, attempt: nat, claim: nat)
    | LookingUp(job: Id, attempt: nat, claim: nat)
    | Creating(job: Id, attempt: nat, claim: nat)
    | Created(job: Id, attempt: nat, fulfillmentId: string)
    | Reporting(job: Id, attempt: nat, fulfillmentId: string, recovered: bool)
    | Settling(job: Id, attempt: nat, settlement: Settlement)
    | Crashed

  /** A fulfilment at Shopify; `origin` is history: the job whose create request made it. */
  datatype Record = Record(f: Fulfillment, origin: Option<Id>)

  type Orders = map<string, seq<Record>>

  /** `claims` counts the claims of each job (history); `sent` are the create requests on their way. */
  datatype World = World(now: int, table: Table, orders: Orders, pcs: map<WorkerId, Pc>, claims: map<Id, nat>, sent: set<Request>)

  datatype Reply = Arrived | FailedBefore(failure: Failure) | LostAfter(failure: Failure)

  datatype Action =
    | Tick(ms: nat)
    | Enqueue(job: Id)
    | ClaimJob(worker: WorkerId, job: Id)
    | Heartbeat(worker: WorkerId, job: Id)
    | Renew(worker: WorkerId, random: real)
    | CallFailed(worker: WorkerId, failure: Failure, random: real)
    | LookedUp(worker: WorkerId, found: bool, openOrders: seq<FulfillmentOrder>, random: real)
    | TakesEffect(request: Request, fulfillmentId: string)
    | Returned(worker: WorkerId)
    | Report(worker: WorkerId, reply: Reply, random: real)
    | Settle(worker: WorkerId, reply: Reply)
    | Crash(worker: WorkerId)
    | OthersFulfill(orderId: string, added: seq<Fulfillment>)

  function PcOf(w: World, worker: WorkerId): Pc {
    if worker in w.pcs then w.pcs[worker] else Idle
  }

  function Goto(w: World, worker: WorkerId, pc: Pc): World {
    w.(pcs := w.pcs[worker := pc])
  }

  function ClaimOf(claims: map<Id, nat>, job: Id): nat {
    if job in claims then claims[job] else 0
  }

  function OrderOf(orders: Orders, id: string): seq<Record> {
    if id in orders then orders[id] else []
  }

  function Fulfillments(records: seq<Record>): seq<Fulfillment> {
    seq(|records|, i requires 0 <= i < |records| => records[i].f)
  }

  function StatusText(status: Option<int>): string {
    "SHOPIFY_" + if status.None? then "ERROR"
                 else if status.value < 0 then "-" + RetryPolicy.DecimalText(-status.value) else RetryPolicy.DecimalText(status.value)
  }

  /** The catch of `tick`. */
  function OnError(cfg: Config, job: Id, attempt: nat, failure: Failure, random: real): Pc {
    match failure
    case LeaseLost => Idle
    case ConnectionUnavailable => Settling(job, attempt, DeferWith(30_000, WAITING_FOR_CONNECTION))
    case Thrown(status, retryAfterMs, message) =>
      Settling(job, attempt,
        if status == Some(429) then
          DeferWith(if retryAfterMs.Some? && retryAfterMs.value > 0 then retryAfterMs.value else RetryPolicy.BackoffMs(attempt, random),
                    WAITING_FOR_RATE_LIMIT)
        else if (status.None? || status.value == 408 || status.value >= 500) && attempt < cfg.maxAttempts then
          RetryWith(RetryPolicy.BackoffMs(attempt, random), StatusText(status))
        else FailWith(message))
  }

  function Refused(message: string): Failure { Thrown(Some(422), None, message) }

  const ORDER_NOT_FOUND := "Shopify order not found"
  const TRACKING_TAKEN := "Existing Shopify fulfillment tracking number has different line items"
  const QUANTITY_EXCEEDS := "Shipment quantity exceeds Shopify remaining quantity"
  const LINE_NOT_FOUND := "Printful shipment line was not found in open Shopify fulfillment orders"

  /** With what message the publisher throws instead of creating or reusing a fulfilment. */
  function RefusalMessage(plan: Plan): string {
    match plan
    case OrderMissing => ORDER_NOT_FOUND
    case TrackingConflict => TRACKING_TAKEN
    case Refuse(QuantityExceedsRemaining) => QUANTITY_EXCEEDS
    case _ => LINE_NOT_FOUND
  }

  function ApplyEnqueue(w: World, job: Id): World {
    if job in w.table.jobs then w
    else w.(table := w.table.(jobs := w.table.jobs[job := FulfillmentStore.Job(Enqueued(w.now), None)]))
  }

  /** Unlike the other workers, this one publishes on the exhausting claim too. */
  function ApplyClaim(cfg: Config, w: World, worker: WorkerId, job: Id): World {
    if PcOf(w, worker) != Idle || !CanClaim(w.table, job, w.now, cfg) then w
    else
      var table := Claim(w.table, job, worker, w.now, cfg);
      var claim := ClaimOf(w.claims, job) + 1;
      Goto(w.(table := table, claims := w.claims[job := claim]), worker, Ready(job, table.jobs[job].row.attempts, claim))
  }

  /** The context is read and the lease renewed right before the publish call. */
  function ApplyRenew(cfg: Config, ships: Shipments, w: World, worker: WorkerId, random: real): World {
    match PcOf(w, worker)
    case Ready(job, attempt, claim) =>
      if job !in ships then Goto(w, worker, OnError(cfg, job, attempt, Thrown(None, None, "Shipment context not found"), random))
      else if ships[job].requested == map[] then
        Goto(w, worker, OnError(cfg, job, attempt, Refused("Shipment contains no mapped items"), random))
      else
      var (table, ok) := ExtendLease(w.table, job, worker, w.now, cfg);
      Goto(w.(table := table), worker, if ok then LookingUp(job, attempt, claim) else Idle)
    case _ => w
  }

  /** An error anywhere before the result is reported. A create request stays on its way. */
  function ApplyCallFailed(cfg: Config, w: World, worker: WorkerId, failure: Failure, random: real): World {
    match PcOf(w, worker)
    case Ready(job, attempt, _) => Goto(w, worker, OnError(cfg, job, attempt, failure, random))
    case LookingUp(job, attempt, _) => Goto(w, worker, OnError(cfg, job, attempt, failure, random))
    case Creating(job, attempt, _) => Goto(w, worker, OnError(cfg, job, attempt, failure, random))
    case Created(job, attempt, _) => Goto(w, worker, OnError(cfg, job, attempt, failure, random))
    case _ => w
  }

  ghost function PlanFor(w: World, shipment: Shipment, found: bool, openOrders: seq<FulfillmentOrder>): Plan {
    PlanOf(if found then Some((Fulfillments(OrderOf(w.orders, shipment.orderId)), openOrders)) else None, shipment.tracking, shipment.requested)
  }

  /** Where the lookup leads its caller. */
  function AfterLookup(cfg: Config, job: Id, attempt: nat, claim: nat, plan: Plan, random: real): Pc {
    match plan
    case Reuse(id) => Reporting(job, attempt, id, true)
    case Create(_) => Creating(job, attempt, claim)
    case _ => OnError(cfg, job, attempt, Refused(RefusalMessage(plan)), random)
  }

  ghost function ApplyLookedUp(cfg: Config, ships: Shipments, w: World, worker: WorkerId, found: bool,
                               openOrders: seq<FulfillmentOrder>, random: real): World {
    match PcOf(w, worker)
    case LookingUp(job, attempt, claim) =>
      if job !in ships then w
      else
        var plan := PlanFor(w, ships[job], found, openOrders);
        var sent := if plan.Create? then w.sent + {Request(worker, job, claim, CreatedLines(FlatGroups(plan.groups)))} else w.sent;
        Goto(w.(sent := sent), worker, AfterLookup(cfg, job, attempt, claim, plan, random))
    case _ => w
  }

  function NewFulfillment(shipment: Shipment, id: string, lines: seq<(LineId, int)>): Fulfillment {
    Fulfillment(id, if HasTracking(shipment.tracking) then [shipment.tracking] else [], lines)
  }

  /** The request is still on its way, and the claim it was sent under still holds its lease. */
  predicate CanTakeEffect(ships: Shipments, w: World, r: Request) {
    r in w.sent && r.job in ships && Holds(w.table, r.job, r.worker, w.now) && ClaimOf(w.claims, r.job) == r.claim
  }

  /** A caller that still waits for this request can now be answered. */
  function Answered(pc: Pc, r: Request, id: string): Pc {
    if pc.Creating? && pc.job == r.job && pc.claim == r.claim then Created(pc.job, pc.attempt, id) else pc
  }

  function ApplyTakesEffect(ships: Shipments, w: World, r: Request, id: string): World {
    if !CanTakeEffect(ships, w, r) then w
    else
      var shipment := ships[r.job];
      var record := Record(NewFulfillment(shipment, id, r.lines), Some(r.job));
      Goto(w.(orders := w.orders[shipment.orderId := OrderOf(w.orders, shipment.orderId) + [record]], sent := w.sent - {r}),
           r.worker, Answered(PcOf(w, r.worker), r, id))
  }

  function ApplyReturned(w: World, worker: WorkerId): World {
    match PcOf(w, worker)
    case Created(job, attempt, id) => Goto(w, worker, Reporting(job, attempt, id, false))
    case _ => w
  }

  function ApplyReport(cfg: Config, w: World, worker: WorkerId, reply: Reply, random: real): World {
    match PcOf(w, worker)
    case Reporting(job, attempt, id, recovered) =>
      var (table, ok) := Success(w.table, job, worker, w.now, id, recovered);
      (match reply
       case FailedBefore(f) => Goto(w, worker, OnError(cfg, job, attempt, f, random))
       case LostAfter(f) => Goto(w.(table := table), worker, OnError(cfg, job, attempt, f, random))
       case Arrived => Goto(w.(table := table), worker, Idle))
    case _ => w
  }

  function Settled(t: Table, job: Id, worker: WorkerId, now: int, settlement: Settlement): Table {
    match settlement
    case DeferWith(delayMs, reason) => Defer(t, job, worker, now, delayMs, reason)
    case RetryWith(delayMs, code) => Retry(t, job, worker, now, delayMs, code)
    case FailWith(message) => Fail(t, job, worker, now, message).0
  }

  function ApplySettle(w: World, worker: WorkerId, reply: Reply): World {
    match PcOf(w, worker)
    case Settling(job, attempt, settlement) =>
      Goto(if reply.FailedBefore? then w else w.(table := Settled(w.table, job, worker, w.now, settlement)), worker, Idle)
    case _ => w
  }

  function ApplyCrash(w: World, worker: WorkerId): World {
    Goto(w, worker, Crashed)
  }

  function OtherRecords(added: seq<Fulfillment>): seq<Record> {
    seq(|added|, i requires 0 <= i < |added| => Record(added[i], None))
  }

  function ApplyOthers(w: World, orderId: string, added: seq<Fulfillment>): World {
    w.(orders := w.orders[orderId := OrderOf(w.orders, orderId) + OtherRecords(added)])
  }

  ghost function Apply(cfg: Config, ships: Shipments, w: World, a: Action): World {
    match a
    case Tick(ms) => w.(now := w.now + ms)
    case Enqueue(job) => ApplyEnqueue(w, job)
    case ClaimJob(worker, job) => ApplyClaim(cfg, w, worker, job)
    case Heartbeat(worker, job) => w.(table := ExtendLease(w.table, job, worker, w.now, cfg).0)
    case Renew(worker, random) => ApplyRenew(cfg, ships, w, worker, random)
    case CallFailed(worker, failure, random) => ApplyCallFailed(cfg, w, worker, failure, random)
    case LookedUp(worker, found, openOrders, random) => ApplyLookedUp(cfg, ships, w, worker, found, openOrders, random)
    case TakesEffect(request, id) => ApplyTakesEffect(ships, w, request, id)
    case Returned(worker) => ApplyReturned(w, worker)
    case Report(worker, reply, random) => ApplyReport(cfg, w, worker, reply, random)
    case Settle(worker, reply) => ApplySettle(w, worker, reply)
    case Crash(worker) => ApplyCrash(w, worker)
    case OthersFulfill(orderId, added) => ApplyOthers(w, orderId, added)
  }

  const INITIAL := World(0, Table(map[], []), map[], map[], map[], {})

  ghost function Run(cfg: Config, ships: Shipments, actions: seq<Action>): World {
    if actions == [] then INITIAL
    else Apply(cfg, ships, Run(cfg, ships, actions[..|actions| - 1]), actions[|actions| - 1])
  }

  // ---- the invariant ----

  /** Like Lease.Consistent, except that a deferral of the exhausting claim leaves PENDING with attempts = max. */
  ghost predicate RowOk(cfg: Config, row: Row) {
    && (row.status == RUNNING ==> 1 <= row.attempts)
    && row.attempts <= cfg.maxAttempts + 1
    && (row.status == PENDING ==> row.attempts <= cfg.maxAttempts)
  }

  /** Some fulfilment with this id ships exactly the requested lines, or looks as if it did. */
  ghost predicate Names(records: seq<Record>, id: string, requested: Requested) {
    exists k :: 0 <= k < |records| && records[k].f.id == id
                && (Ships(records[k].f.lines, requested) || LooksRight(records[k].f, requested))
  }

  function Produced(records: seq<Record>, job: Id): nat {
    if records == [] then 0
    else Produced(records[..|records| - 1], job) + if records[|records| - 1].origin == Some(job) then 1 else 0
  }

  /** What is known of the fulfilments `job` produced in its order. */
  ghost predicate RecordsOk(ships: Shipments, orderId: string, records: seq<Record>) {
    forall k :: 0 <= k < |records| && records[k].origin.Some? ==>
      && records[k].origin.value in ships
      && ships[records[k].origin.value].orderId == orderId
      && (var tracking := ships[records[k].origin.value].tracking;
          HasTracking(tracking) ==> records[k].f.tracking == [tracking])
  }

  ghost predicate JobOk(cfg: Config, ships: Shipments, orders: Orders, id: Id, job: FulfillmentStore.Job) {
    && RowOk(cfg, job.row)
    && (job.row.status == SUCCEEDED ==>
        && job.fulfillmentId.Some?
        && (id in ships ==> Names(OrderOf(orders, ships[id].orderId), job.fulfillmentId.value, ships[id].requested)))
  }

  ghost function ProducedBy(ships: Shipments, orders: Orders, job: Id): nat
    requires job in ships
  {
    Produced(OrderOf(orders, ships[job].orderId), job)
  }

  ghost predicate OwnsJob(t: Table, job: Id, worker: WorkerId) {
    job in t.jobs && Owned(t.jobs[job].row, worker)
  }

  ghost predicate Attempting(t: Table, worker: WorkerId, job: Id, attempt: nat) {
    job in t.jobs && (Owned(t.jobs[job].row, worker) ==> t.jobs[job].row.attempts == attempt)
  }

  ghost predicate Known(ships: Shipments, orders: Orders, job: Id, id: string) {
    job in ships ==> Names(OrderOf(orders, ships[job].orderId), id, ships[job].requested)
  }

  ghost predicate PcOk(cfg: Config, ships: Shipments, t: Table, orders: Orders, worker: WorkerId, pc: Pc) {
    match pc
    case Idle => true
    case Ready(job, attempt, _) => Attempting(t, worker, job, attempt)
    case LookingUp(job, attempt, _) => Attempting(t, worker, job, attempt)
    case Creating(job, attempt, _) => Attempting(t, worker, job, attempt)
    case Created(job, attempt, id) => Attempting(t, worker, job, attempt) && Known(ships, orders, job, id)
    case Reporting(job, attempt, id, _) => Attempting(t, worker, job, attempt) && Known(ships, orders, job, id)
    case Settling(job, attempt, s) => Attempting(t, worker, job, attempt) && (s.RetryWith? ==> attempt < cfg.maxAttempts)
    case Crashed => true
  }

  ghost predicate JobsOk(cfg: Config, ships: Shipments, t: Table, orders: Orders) {
    forall id :: id in t.jobs ==> JobOk(cfg, ships, orders, id, t.jobs[id])
  }

  ghost predicate OrdersOk(ships: Shipments, orders: Orders) {
    forall id :: id in orders ==> RecordsOk(ships, id, orders[id])
  }

  /** Every request on its way asks for exactly the requested lines. */
  ghost predicate SentOk(ships: Shipments, sent: set<Request>) {
    forall r :: r in sent && r.job in ships ==> Ships(r.lines, ships[r.job].requested)
  }

  ghost predicate PcsOk(cfg: Config, ships: Shipments, t: Table, orders: Orders, pcs: map<WorkerId, Pc>, except: Option<WorkerId>) {
    forall worker :: worker in pcs && Some(worker) != except ==> PcOk(cfg, ships, t, orders, worker, pcs[worker])
  }

  ghost predicate Inv(cfg: Config, ships: Shipments, w: World) {
    && JobsOk(cfg, ships, w.table, w.orders)
    && OrdersOk(ships, w.orders)
    && SentOk(ships, w.sent)
    && PcsOk(cfg, ships, w.table, w.orders, w.pcs, None)
  }

  // ---- steps on the job table ----

  ghost predicate RowKeeps(before: Row, after: Row, claimant: Option<WorkerId>) {
    || after.status != RUNNING
    || (before.status == RUNNING && after.lockedBy == before.lockedBy && after.attempts == before.attempts)
    || (claimant.Some? && after.lockedBy == claimant)
  }

  ghost predicate TableKeeps(t: Table, next: Table, claimant: Option<WorkerId>) {
    && (forall id :: id in t.jobs ==> id in next.jobs && RowKeeps(t.jobs[id].row, next.jobs[id].row, claimant))
    && (forall id :: id in next.jobs && id !in t.jobs ==> next.jobs[id].row.status != RUNNING)
  }

  lemma TablePcs(cfg: Config, ships: Shipments, t: Table, next: Table, orders: Orders, pcs: map<WorkerId, Pc>, claimant: Option<WorkerId>)
    requires PcsOk(cfg, ships, t, orders, pcs, None) && TableKeeps(t, next, claimant)
    ensures PcsOk(cfg, ships, next, orders, pcs, claimant)
  {
    forall u | u in pcs && Some(u) != claimant ensures PcOk(cfg, ships, next, orders, u, pcs[u]) {
      TablePc(cfg, ships, t, next, orders, claimant, u, pcs[u]);
    }
  }

  lemma TablePc(cfg: Config, ships: Shipments, t: Table, next: Table, orders: Orders, claimant: Option<WorkerId>, u: WorkerId, pc: Pc)
    requires PcOk(cfg, ships, t, orders, u, pc) && TableKeeps(t, next, claimant) && Some(u) != claimant
    ensures PcOk(cfg, ships, next, orders, u, pc)
  {
    hide Known;
  }

  lemma MoveOk(cfg: Config, ships: Shipments, w: World, next: Table, actor: WorkerId, claimant: Option<WorkerId>, pc: Pc)
    requires Inv(cfg, ships, w) && JobsOk(cfg, ships, next, w.orders) && TableKeeps(w.table, next, claimant)
    requires claimant in {None, Some(actor)} && PcOk(cfg, ships, next, w.orders, actor, pc)
    ensures Inv(cfg, ships, Goto(w.(table := next), actor, pc))
  {
    TablePcs(cfg, ships, w.table, next, w.orders, w.pcs, claimant);
  }

  lemma StayOk(cfg: Config, ships: Shipments, w: World, next: Table)
    requires Inv(cfg, ships, w) && JobsOk(cfg, ships, next, w.orders) && TableKeeps(w.table, next, None)
    ensures Inv(cfg, ships, w.(table := next))
  {
    TablePcs(cfg, ships, w.table, next, w.orders, w.pcs, None);
  }

  lemma PcAt(cfg: Config, ships: Shipments, w: World, worker: WorkerId)
    requires Inv(cfg, ships, w)
    ensures PcOk(cfg, ships, w.table, w.orders, worker, PcOf(w, worker))
    ensures TableKeeps(w.table, w.table, None) && JobsOk(cfg, ships, w.table, w.orders)
  {
  }

  lemma OneJob(cfg: Config, ships: Shipments, orders: Orders, t: Table, next: Table, id: Id, job: FulfillmentStore.Job, claimant: Option<WorkerId>)
    requires JobsOk(cfg, ships, t, orders) && id in t.jobs && next.jobs == t.jobs[id := job]
    requires JobOk(cfg, ships, orders, id, job) && RowKeeps(t.jobs[id].row, job.row, claimant)
    ensures JobsOk(cfg, ships, next, orders) && TableKeeps(t, next, claimant)
  {
  }

  lemma ErrorPlace(cfg: Config, ships: Shipments, t: Table, orders: Orders, worker: WorkerId, job: Id, attempt: nat, failure: Failure, random: real)
    requires Attempting(t, worker, job, attempt)
    ensures PcOk(cfg, ships, t, orders, worker, OnError(cfg, job, attempt, failure, random))
  {
    hide RetryPolicy.BackoffMs, StatusText;
  }

  lemma ClaimStep(cfg: Config, ships: Shipments, w: World, worker: WorkerId, job: Id)
    requires Inv(cfg, ships, w)
    ensures Inv(cfg, ships, ApplyClaim(cfg, w, worker, job))
  {
    if PcOf(w, worker) == Idle && CanClaim(w.table, job, w.now, cfg) {
      PcAt(cfg, ships, w, worker);
      var next := Claim(w.table, job, worker, w.now, cfg);
      assert JobOk(cfg, ships, w.orders, job, w.table.jobs[job]);
      OneJob(cfg, ships, w.orders, w.table, next, job, next.jobs[job], Some(worker));
      hide JobsOk, TableKeeps, JobOk;
      var claim := ClaimOf(w.claims, job) + 1;
      MoveOk(cfg, ships, w, next, worker, Some(worker), Ready(job, next.jobs[job].row.attempts, claim));
    }
  }

  lemma ExtendOk(cfg: Config, ships: Shipments, w: World, worker: WorkerId, job: Id)
    requires Inv(cfg, ships, w)
    ensures var next := ExtendLease(w.table, job, worker, w.now, cfg).0;
            JobsOk(cfg, ships, next, w.orders) && TableKeeps(w.table, next, None)
  {
    if Holds(w.table, job, worker, w.now) {
      var next := ExtendLease(w.table, job, worker, w.now, cfg).0;
      assert JobOk(cfg, ships, w.orders, job, w.table.jobs[job]);
      OneJob(cfg, ships, w.orders, w.table, next, job, next.jobs[job], None);
    }
  }

  lemma RenewStep(cfg: Config, ships: Shipments, w: World, worker: WorkerId, random: real)
    requires Inv(cfg, ships, w)
    ensures Inv(cfg, ships, ApplyRenew(cfg, ships, w, worker, random))
  {
    PcAt(cfg, ships, w, worker);
    var pc := PcOf(w, worker);
    if pc.Ready? {
      var (next, ok) := ExtendLease(w.table, pc.job, worker, w.now, cfg);
      ExtendOk(cfg, ships, w, worker, pc.job);
      TablePc(cfg, ships, w.table, next, w.orders, None, worker, pc);
      var failure := if pc.job !in ships then Thrown(None, None, "Shipment context not found") else Refused("Shipment contains no mapped items");
      ErrorPlace(cfg, ships, w.table, w.orders, worker, pc.job, pc.attempt, failure, random);
      hide JobsOk, TableKeeps, ExtendLease, OnError;
      MoveOk(cfg, ships, w, next, worker, None, if ok then LookingUp(pc.job, pc.attempt, pc.claim) else Idle);
      MoveOk(cfg, ships, w, w.table, worker, None, OnError(cfg, pc.job, pc.attempt, failure, random));
    }
  }

  lemma CallFailedStep(cfg: Config, ships: Shipments, w: World, worker: WorkerId, failure: Failure, random: real)
    requires Inv(cfg, ships, w)
    ensures Inv(cfg, ships, ApplyCallFailed(cfg, w, worker, failure, random))
  {
    PcAt(cfg, ships, w, worker);
    var pc := PcOf(w, worker);
    if pc.Ready? || pc.LookingUp? || pc.Creating? || pc.Created? {
      ErrorPlace(cfg, ships, w.table, w.orders, worker, pc.job, pc.attempt, failure, random);
      hide JobsOk, TableKeeps, OnError, PcOk;
      MoveOk(cfg, ships, w, w.table, worker, None, OnError(cfg, pc.job, pc.attempt, failure, random));
    }
  }

  lemma SettledOk(cfg: Config, ships: Shipments, w: World, worker: WorkerId, pc: Pc)
    requires Inv(cfg, ships, w) && pc.Settling? && PcOk(cfg, ships, w.table, w.orders, worker, pc)
    ensures var next := Settled(w.table, pc.job, worker, w.now, pc.settlement);
            JobsOk(cfg, ships, next, w.orders) && TableKeeps(w.table, next, None)
  {
    if Holds(w.table, pc.job, worker, w.now) {
      var next := Settled(w.table, pc.job, worker, w.now, pc.settlement);
      assert JobOk(cfg, ships, w.orders, pc.job, w.table.jobs[pc.job]);
      OneJob(cfg, ships, w.orders, w.table, next, pc.job, next.jobs[pc.job], None);
    }
  }

  lemma SettleStep(cfg: Config, ships: Shipments, w: World, worker: WorkerId, reply: Reply)
    requires Inv(cfg, ships, w)
    ensures Inv(cfg, ships, ApplySettle(w, worker, reply))
  {
    PcAt(cfg, ships, w, worker);
    var pc := PcOf(w, worker);
    if pc.Settling? {
      SettledOk(cfg, ships, w, worker, pc);
      hide JobsOk, TableKeeps, Settled;
      MoveOk(cfg, ships, w, if reply.FailedBefore? then w.table else Settled(w.table, pc.job, worker, w.now, pc.settlement), worker, None, Idle);
    }
  }

  lemma ReportedOk(cfg: Config, ships: Shipments, w: World, worker: WorkerId, pc: Pc)
    requires Inv(cfg, ships, w) && pc.Reporting? && PcOk(cfg, ships, w.table, w.orders, worker, pc)
    ensures var next := Success(w.table, pc.job, worker, w.now, pc.fulfillmentId, pc.recovered).0;
            JobsOk(cfg, ships, next, w.orders) && TableKeeps(w.table, next, None)
  {
    if Holds(w.table, pc.job, worker, w.now) {
      var next := Success(w.table, pc.job, worker, w.now, pc.fulfillmentId, pc.recovered).0;
      assert JobOk(cfg, ships, w.orders, pc.job, w.table.jobs[pc.job]);
      OneJob(cfg, ships, w.orders, w.table, next, pc.job, next.jobs[pc.job], None);
    }
  }

  lemma ReportStep(cfg: Config, ships: Shipments, w: World, worker: WorkerId, reply: Reply, random: real)
    requires Inv(cfg, ships, w)
    ensures Inv(cfg, ships, ApplyReport(cfg, w, worker, reply, random))
  {
    PcAt(cfg, ships, w, worker);
    var pc := PcOf(w, worker);
    if pc.Reporting? {
      ReportedOk(cfg, ships, w, worker, pc);
      var reported := Success(w.table, pc.job, worker, w.now, pc.fulfillmentId, pc.recovered).0;
      var next := if reply.FailedBefore? then w.table else reported;
      TablePc(cfg, ships, w.table, next, w.orders, None, worker, pc);
      var failure := if reply.Arrived? then LeaseLost else reply.failure;
      ErrorPlace(cfg, ships, next, w.orders, worker, pc.job, pc.attempt, failure, random);
      hide JobsOk, TableKeeps, Success, PcOk;
      MoveOk(cfg, ships, w, next, worker, None, OnError(cfg, pc.job, pc.attempt, failure, random));
    }
  }

  lemma CrashStep(cfg: Config, ships: Shipments, w: World, worker: WorkerId)
    requires Inv(cfg, ships, w)
    ensures Inv(cfg, ships, ApplyCrash(w, worker))
  {
    PcAt(cfg, ships, w, worker);
    hide JobsOk, TableKeeps;
    MoveOk(cfg, ships, w, w.table, worker, None, Crashed);
  }

  lemma ReturnedStep(cfg: Config, ships: Shipments, w: World, worker: WorkerId)
    requires Inv(cfg, ships, w)
    ensures Inv(cfg, ships, ApplyReturned(w, worker))
  {
    PcAt(cfg, ships, w, worker);
    var pc := PcOf(w, worker);
    if pc.Created? {
      hide JobsOk, TableKeeps;
      MoveOk(cfg, ships, w, w.table, worker, None, Reporting(pc.job, pc.attempt, pc.fulfillmentId, false));
    }
  }

  lemma EnqueueStep(cfg: Config, ships: Shipments, w: World, job: Id)
    requires Inv(cfg, ships, w)
    ensures Inv(cfg, ships, ApplyEnqueue(w, job))
  {
    if job !in w.table.jobs { StayOk(cfg, ships, w, ApplyEnqueue(w, job).table); }
  }

  // ---- the lookup ----

  lemma LookupPlanOk(ships: Shipments, orders: Orders, job: Id, openOrders: seq<FulfillmentOrder>)
    requires job in ships
    ensures var records := OrderOf(orders, ships[job].orderId);
            var plan := PlanOf(Some((Fulfillments(records), openOrders)), ships[job].tracking, ships[job].requested);
            && (plan.Reuse? ==> Known(ships, orders, job, plan.id))
            && (plan.Create? ==> Ships(CreatedLines(FlatGroups(plan.groups)), ships[job].requested))
  {
    var records := OrderOf(orders, ships[job].orderId);
    var all := Fulfillments(records);
    var plan := PlanOf(Some((all, openOrders)), ships[job].tracking, ships[job].requested);
    PlanExact(all, openOrders, ships[job].tracking, ships[job].requested);
    if plan.Reuse? {
      var f :| f in all && f.id == plan.id && Tracks(f, ships[job].tracking.value) && LooksRight(f, ships[job].requested);
      var k :| 0 <= k < |records| && all[k] == f;
      assert records[k].f == f;
    }
  }

  /** The request the action sends, if any. */
  ghost function Sends(ships: Shipments, w: World, a: Action): Option<Request> {
    if !a.LookedUp? then None
    else
      match PcOf(w, a.worker)
      case LookingUp(job, attempt, claim) =>
        if job !in ships then None
        else
          (match PlanFor(w, ships[job], a.found, a.openOrders)
           case Create(groups) => Some(Request(a.worker, job, claim, CreatedLines(FlatGroups(groups))))
           case _ => None)
      case _ => None
  }

  lemma LookedUpStep(cfg: Config, ships: Shipments, w: World, worker: WorkerId, found: bool, openOrders: seq<FulfillmentOrder>, random: real)
    requires Inv(cfg, ships, w)
    ensures Inv(cfg, ships, ApplyLookedUp(cfg, ships, w, worker, found, openOrders, random))
  {
    PcAt(cfg, ships, w, worker);
    var pc := PcOf(w, worker);
    if pc.LookingUp? && pc.job in ships {
      LookupPlanOk(ships, w.orders, pc.job, openOrders);
      var plan := PlanFor(w, ships[pc.job], found, openOrders);
      PlanPcOk(cfg, ships, w, worker, pc.job, pc.attempt, pc.claim, plan, random);
      hide JobsOk, TableKeeps, AfterLookup, PlanOf, PcOk, Ships, FlatGroups, CreatedLines;
      MoveOk(cfg, ships, w, w.table, worker, None, AfterLookup(cfg, pc.job, pc.attempt, pc.claim, plan, random));
    }
  }

  lemma PlanPcOk(cfg: Config, ships: Shipments, w: World, worker: WorkerId, job: Id, attempt: nat, claim: nat, plan: Plan, random: real)
    requires Attempting(w.table, worker, job, attempt) && (plan.Reuse? ==> Known(ships, w.orders, job, plan.id))
    ensures PcOk(cfg, ships, w.table, w.orders, worker, AfterLookup(cfg, job, attempt, claim, plan, random))
  {
    ErrorPlace(cfg, ships, w.table, w.orders, worker, job, attempt, Refused(RefusalMessage(plan)), random);
    hide OnError, RefusalMessage, Known;
  }

  // ---- steps at Shopify ----

  lemma {:induction false} ProducedAppend(records: seq<Record>, added: seq<Record>, job: Id)
    ensures Produced(records + added, job) == Produced(records, job) + Produced(added, job)
  {
    if added == [] {
      assert records + added == records;
    } else {
      var n := |added| - 1;
      ProducedAppend(records, added[..n], job);
      assert (records + added)[..|records| + n] == records + added[..n];
    }
  }

  lemma {:induction false} OthersProduceNothing(added: seq<Record>, job: Id)
    requires forall k :: 0 <= k < |added| ==> added[k].origin != Some(job)
    ensures Produced(added, job) == 0
  {
    if added != [] { OthersProduceNothing(added[..|added| - 1], job); }
  }

  lemma NamesAppend(records: seq<Record>, added: seq<Record>, id: string, requested: Requested)
    requires Names(records, id, requested)
    ensures Names(records + added, id, requested)
  {
    var k :| 0 <= k < |records| && records[k].f.id == id
             && (Ships(records[k].f.lines, requested) || LooksRight(records[k].f, requested));
    assert (records + added)[k] == records[k];
  }

  /** Orders only grow: `added` goes to the end of one order, and produces for nobody but `maker`. */
  ghost predicate Grows(ships: Shipments, orders: Orders, next: Orders, maker: Option<Id>) {
    && (forall id :: OrderOf(orders, id) <= OrderOf(next, id))
    && (forall job :: job in ships && Some(job) != maker ==> ProducedBy(ships, next, job) == ProducedBy(ships, orders, job))
  }

  lemma AppendGrows(ships: Shipments, orders: Orders, orderId: string, added: seq<Record>, maker: Option<Id>)
    requires forall k :: 0 <= k < |added| ==> added[k].origin == maker
    ensures Grows(ships, orders, orders[orderId := OrderOf(orders, orderId) + added], maker)
  {
    var next := orders[orderId := OrderOf(orders, orderId) + added];
    forall job | job in ships && Some(job) != maker ensures ProducedBy(ships, next, job) == ProducedBy(ships, orders, job) {
      ProducedAppend(OrderOf(orders, orderId), added, job);
      OthersProduceNothing(added, job);
    }
  }

  lemma KnownGrows(ships: Shipments, orders: Orders, next: Orders, maker: Option<Id>, job: Id, id: string)
    requires Grows(ships, orders, next, maker) && Known(ships, orders, job, id)
    ensures Known(ships, next, job, id)
  {
    if job in ships {
      var before, after := OrderOf(orders, ships[job].orderId), OrderOf(next, ships[job].orderId);
      NamesAppend(before, after[|before|..], id, ships[job].requested);
      assert before + after[|before|..] == after;
    }
  }

  lemma GrowsPc(cfg: Config, ships: Shipments, t: Table, orders: Orders, next: Orders, maker: Option<Id>, u: WorkerId, pc: Pc)
    requires Grows(ships, orders, next, maker) && PcOk(cfg, ships, t, orders, u, pc)
    ensures PcOk(cfg, ships, t, next, u, pc)
  {
    if pc.Created? || pc.Reporting? { KnownGrows(ships, orders, next, maker, pc.job, pc.fulfillmentId); }
    hide Known, Grows;
  }

  lemma GrowsJobs(cfg: Config, ships: Shipments, t: Table, orders: Orders, next: Orders, maker: Option<Id>)
    requires Grows(ships, orders, next, maker) && JobsOk(cfg, ships, t, orders)
    ensures JobsOk(cfg, ships, t, next)
  {
    forall id | id in t.jobs ensures JobOk(cfg, ships, next, id, t.jobs[id]) {
      assert JobOk(cfg, ships, orders, id, t.jobs[id]);
      if t.jobs[id].row.status == SUCCEEDED { KnownGrows(ships, orders, next, maker, id, t.jobs[id].fulfillmentId.value); }
    }
  }

  lemma OthersStep(cfg: Config, ships: Shipments, w: World, orderId: string, added: seq<Fulfillment>)
    requires Inv(cfg, ships, w)
    ensures Inv(cfg, ships, ApplyOthers(w, orderId, added))
  {
    var next := ApplyOthers(w, orderId, added).orders;
    AppendGrows(ships, w.orders, orderId, OtherRecords(added), None);
    GrowsJobs(cfg, ships, w.table, w.orders, next, None);
    forall u | u in w.pcs ensures PcOk(cfg, ships, w.table, next, u, w.pcs[u]) {
      GrowsPc(cfg, ships, w.table, w.orders, next, None, u, w.pcs[u]);
    }
    OthersRecordsOk(ships, w.orders, orderId, OtherRecords(added));
  }

  lemma OthersRecordsOk(ships: Shipments, orders: Orders, orderId: string, added: seq<Record>)
    requires forall id :: id in orders ==> RecordsOk(ships, id, orders[id])
    requires RecordsOk(ships, orderId, added)
    ensures var next := orders[orderId := OrderOf(orders, orderId) + added];
            forall id :: id in next ==> RecordsOk(ships, id, next[id])
  {
  }

  lemma EffectStep(cfg: Config, ships: Shipments, w: World, r: Request, id: string)
    requires Inv(cfg, ships, w)
    ensures Inv(cfg, ships, ApplyTakesEffect(ships, w, r, id))
  {
    PcAt(cfg, ships, w, r.worker);
    if CanTakeEffect(ships, w, r) {
      var shipment := ships[r.job];
      var record := Record(NewFulfillment(shipment, id, r.lines), Some(r.job));
      var next := w.orders[shipment.orderId := OrderOf(w.orders, shipment.orderId) + [record]];
      AppendGrows(ships, w.orders, shipment.orderId, [record], Some(r.job));
      GrowsJobs(cfg, ships, w.table, w.orders, next, Some(r.job));
      OthersRecordsOk(ships, w.orders, shipment.orderId, [record]);
      EffectKnown(ships, w.orders, r.job, record);
      GrowsPc(cfg, ships, w.table, w.orders, next, Some(r.job), r.worker, PcOf(w, r.worker));
      EffectPcs(cfg, ships, w, r.worker, r.job, next, Answered(PcOf(w, r.worker), r, id));
    }
  }

  lemma EffectKnown(ships: Shipments, orders: Orders, job: Id, record: Record)
    requires job in ships && Ships(record.f.lines, ships[job].requested)
    ensures var orderId := ships[job].orderId;
            Known(ships, orders[orderId := OrderOf(orders, orderId) + [record]], job, record.f.id)
  {
    var records := OrderOf(orders, ships[job].orderId) + [record];
    assert records[|records| - 1] == record;
  }

  lemma EffectPcs(cfg: Config, ships: Shipments, w: World, worker: WorkerId, job: Id, next: Orders, pc: Pc)
    requires PcsOk(cfg, ships, w.table, w.orders, w.pcs, None) && Grows(ships, w.orders, next, Some(job))
    requires PcOk(cfg, ships, w.table, next, worker, pc)
    ensures PcsOk(cfg, ships, w.table, next, w.pcs[worker := pc], None)
  {
    forall u | u in w.pcs && u != worker ensures PcOk(cfg, ships, w.table, next, u, w.pcs[u]) {
      GrowsPc(cfg, ships, w.table, w.orders, next, Some(job), u, w.pcs[u]);
    }
  }

  lemma ApplyOk(cfg: Config, ships: Shipments, w: World, a: Action)
    requires Inv(cfg, ships, w)
    ensures Inv(cfg, ships, Apply(cfg, ships, w, a))
  {
    match a
    case Tick(ms) =>
    case Enqueue(job) => EnqueueStep(cfg, ships, w, job);
    case ClaimJob(worker, job) => ClaimStep(cfg, ships, w, worker, job);
    case Heartbeat(worker, job) =>
      ExtendOk(cfg, ships, w, worker, job);
      StayOk(cfg, ships, w, ExtendLease(w.table, job, worker, w.now, cfg).0);
    case Renew(worker, random) => RenewStep(cfg, ships, w, worker, random);
    case CallFailed(worker, failure, random) => CallFailedStep(cfg, ships, w, worker, failure, random);
    case LookedUp(worker, found, openOrders, random) => LookedUpStep(cfg, ships, w, worker, found, openOrders, random);
    case TakesEffect(request, id) => EffectStep(cfg, ships, w, request, id);
    case Returned(worker) => ReturnedStep(cfg, ships, w, worker);
    case Report(worker, reply, random) => ReportStep(cfg, ships, w, worker, reply, random);
    case Settle(worker, reply) => SettleStep(cfg, ships, w, worker, reply);
    case Crash(worker) => CrashStep(cfg, ships, w, worker);
    case OthersFulfill(orderId, added) => OthersStep(cfg, ships, w, orderId, added);
  }

  lemma {:induction false} RunOk(cfg: Config, ships: Shipments, actions: seq<Action>)
    ensures Inv(cfg, ships, Run(cfg, ships, actions))
  {
    if actions != [] {
      RunOk(cfg, ships, actions[..|actions| - 1]);
      ApplyOk(cfg, ships, Run(cfg, ships, actions[..|actions| - 1]), actions[|actions| - 1]);
    }
  }

  /** Lookups and what happens at Shopify do not touch the job table. */
  lemma LookupKeepsTable(cfg: Config, ships: Shipments, w: World, a: Action)
    ensures a.LookedUp? ==> ApplyLookedUp(cfg, ships, w, a.worker, a.found, a.openOrders, a.random).table == w.table
    ensures a.TakesEffect? ==> ApplyTakesEffect(ships, w, a.request, a.fulfillmentId).table == w.table
    ensures a.OthersFulfill? ==> ApplyOthers(w, a.orderId, a.added).table == w.table
  {
    hide PlanFor, AfterLookup, CreatedLines, FlatGroups;
  }
}
