/** Concrete runs of `FulfillmentProtocol` in which the code falls short of its intent. */
module FulfillmentRuns {
  import opened Lease
  import opened FulfillmentPublisher
  import opened FulfillmentStore
  import opened FulfillmentProtocol
  import opened FulfillmentOutcome
  import RetryPolicy

  lemma RunStep(cfg: Config, ships: Shipments, actions: seq<Action>, a: Action)
    ensures Run(cfg, ships, actions + [a]) == Apply(cfg, ships, Run(cfg, ships, actions), a)
  {
    assert (actions + [a])[..|actions|] == actions;
  }

  /** Such a run exists: the first claimant crashes, the exhausting claim finds no connection and defers. */
  lemma StrandedRun()
    ensures var cfg := Config(1, 1);
            exists actions, a :: LateDeferral(cfg, Run(cfg, map[], actions), a)
  {
    var cfg := Config(1, 1);
    hide *;
    var actions := AboutToDefer();
    assert LateDeferral(cfg, Run(cfg, map[], actions), Settle("second", Arrived));
  }

  lemma AboutToDefer() returns (actions: seq<Action>)
    ensures LateDeferral(Config(1, 1), Run(Config(1, 1), map[], actions), Settle("second", Arrived))
  {
    hide *;
    var claimed := [Enqueue("job"), ClaimJob("first", "job"), Crash("first")] + [Tick(1)] + [ClaimJob("second", "job")];
    ClaimedAgainRun();
    RunStep(Config(1, 1), map[], claimed, CallFailed("second", ConnectionUnavailable, 0.0));
    DefersLate(Run(Config(1, 1), map[], claimed));
    actions := claimed + [CallFailed("second", ConnectionUnavailable, 0.0)];
  }

  /** The exhausting claimant finds no connection and is about to defer. */
  lemma DefersLate(claimed: World)
    requires claimed == World(1, Table(map["job" := Job(Row(RUNNING, 2, 0, Some("second"), Some(2), None), None)], []), map[],
                              map["first" := Crashed, "second" := Ready("job", 2, 2)], map["job" := 2], {})
    ensures LateDeferral(Config(1, 1), Apply(Config(1, 1), map[], claimed, CallFailed("second", ConnectionUnavailable, 0.0)),
                         Settle("second", Arrived))
  {
    var w := Apply(Config(1, 1), map[], claimed, CallFailed("second", ConnectionUnavailable, 0.0));
    assert w == Goto(claimed, "second", Settling("job", 2, DeferWith(30_000, WAITING_FOR_CONNECTION)));
  }

  lemma ClaimedAgainRun()
    ensures Run(Config(1, 1), map[], [Enqueue("job"), ClaimJob("first", "job"), Crash("first")] + [Tick(1)] + [ClaimJob("second", "job")])
            == World(1, Table(map["job" := Job(Row(RUNNING, 2, 0, Some("second"), Some(2), None), None)], []), map[],
                     map["first" := Crashed, "second" := Ready("job", 2, 2)], map["job" := 2], {})
  {
    var a2 := [Enqueue("job"), ClaimJob("first", "job"), Crash("first")];
    hide Run;
    CrashedRun();
    RunStep(Config(1, 1), map[], a2, Tick(1));
    RunStep(Config(1, 1), map[], a2 + [Tick(1)], ClaimJob("second", "job"));
    SecondClaim();
  }

  lemma SecondClaim()
    ensures ApplyClaim(Config(1, 1),
                       World(1, Table(map["job" := Job(Row(RUNNING, 1, 0, Some("first"), Some(1), None), None)], []), map[],
                             map["first" := Crashed], map["job" := 1], {}),
                       "second", "job")
            == World(1, Table(map["job" := Job(Row(RUNNING, 2, 0, Some("second"), Some(2), None), None)], []), map[],
                     map["first" := Crashed, "second" := Ready("job", 2, 2)], map["job" := 2], {})
  {
  }

  lemma CrashedRun()
    ensures Run(Config(1, 1), map[], [Enqueue("job"), ClaimJob("first", "job"), Crash("first")])
            == World(0, Table(map["job" := Job(Row(RUNNING, 1, 0, Some("first"), Some(1), None), None)], []), map[], map["first" := Crashed], map["job" := 1], {})
  {
    var cfg := Config(1, 1);
    var a1: seq<Action> := [Enqueue("job")];
    EnqueuedRun(cfg, map[]);
    hide Run;
    RunStep(cfg, map[], a1, ClaimJob("first", "job"));
    RunStep(cfg, map[], a1 + [ClaimJob("first", "job")], Crash("first"));
    assert a1 + [ClaimJob("first", "job")] + [Crash("first")] == [Enqueue("job"), ClaimJob("first", "job"), Crash("first")];
  }

  // Such a second fulfilment happens: each of two workers sends its request, times out, and the request lands
  // afterwards; in between a hundred other fulfilments arrive.

  const EXAMPLE_SHIPS: Shipments := map["job" := Shipment("order", Some("track"), map["line" := 1])]
  const EXAMPLE_CFG := Config(1, 8)
  const OTHER := Fulfillment("other", [], [])
  const TIMEOUT := Thrown(None, None, "timeout")

  function Open(remaining: int): seq<FulfillmentOrder> { [FulfillmentOrder("open", [OrderItem("item", remaining, "line")])] }

  function Others(): seq<Fulfillment> { seq(100, i => OTHER) }

  function Own(id: string): Fulfillment { Fulfillment(id, [Some("track")], [("line", 1)]) }

  lemma ExamplePlan(fulfillments: seq<Fulfillment>, remaining: int)
    requires remaining >= 1 && forall f :: f in NewestPage(fulfillments) ==> !Tracks(f, "track")
    ensures var plan := PlanOf(Some((fulfillments, Open(remaining))), Some("track"), map["line" := 1]);
            plan.Create? && CreatedLines(FlatGroups(plan.groups)) == [("line", 1)]
  {
    hide *;
    RecoveryExact(NewestPage(fulfillments), "track", map["line" := 1]);
    ExampleAllocation(remaining);
    CreatesWhenNoneFound(fulfillments, Open(remaining), "track", map["line" := 1]);
  }

  lemma CreatesWhenNoneFound(fulfillments: seq<Fulfillment>, orders: seq<FulfillmentOrder>, number: string, requested: Requested)
    requires RecoveryOf(NewestPage(fulfillments), number, requested).NoneFound?
    requires !SomeShort(Flat(orders), requested) && !SomeMissing(Flat(orders), requested)
    ensures PlanOf(Some((fulfillments, orders)), Some(number), requested) == Create(GroupsOf(orders, requested))
  {
    hide RecoveryOf, NewestPage, Flat, SomeShort, SomeMissing, GroupsOf;
  }

  /** The one open item is picked with the requested quantity. */
  lemma ExampleAllocation(remaining: int)
    requires remaining >= 1
    ensures var requested: Requested := map["line" := 1];
            && !SomeShort(Flat(Open(remaining)), requested) && !SomeMissing(Flat(Open(remaining)), requested)
            && CreatedLines(FlatGroups(GroupsOf(Open(remaining), requested))) == [("line", 1)]
  {
    var requested: Requested := map["line" := 1];
    var items := [OrderItem("item", remaining, "line")];
    FlatOne(Open(remaining)[0]);
    assert items[..0] == [];
    assert Lines([]) == {};
    assert FirstOf(items, 0, {});
    assert items[0] in items && "line" in Lines(items);
    assert !SomeShort(items, requested) && !SomeMissing(items, requested);
    GroupsAreThePicks(Open(remaining), requested);
    PicksUnfold(items, {}, requested);
    assert PicksIn([], {}, requested) == [];
    assert PicksIn(items, {}, requested) == [GroupItem(items[0], 1)];
  }

  lemma FlatOne(order: FulfillmentOrder)
    ensures Flat([order]) == order.items
  {
    assert [order][..0] == [];
  }

  /** The world once `worker` has claimed the job and renewed its lease. */
  function Leased(w: World, worker: WorkerId): World
    requires "job" in w.table.jobs
  {
    var row := w.table.jobs["job"].row;
    var claim := ClaimOf(w.claims, "job") + 1;
    Goto(w.(table := WithRow(w.table, "job", Row(RUNNING, row.attempts + 1, row.availableAt, Some(worker), Some(w.now + 1), row.lastError)),
            claims := w.claims["job" := claim]),
         worker, LookingUp("job", row.attempts + 1, claim))
  }

  function OwnRequest(worker: WorkerId, claim: nat): Request { Request(worker, "job", claim, [("line", 1)]) }

  /** After its timeout: the caller is about to retry, the request is on its way. */
  function TimedOut(w: World, worker: WorkerId): World
    requires PcOf(w, worker).LookingUp?
  {
    var pc := PcOf(w, worker);
    Goto(w.(sent := w.sent + {OwnRequest(worker, pc.claim)}), worker, OnError(EXAMPLE_CFG, "job", pc.attempt, TIMEOUT, 0.0))
  }

  function Landed(w: World, r: Request, id: string): World {
    w.(orders := w.orders["order" := OrderOf(w.orders, "order") + [Record(Own(id), Some("job"))]], sent := w.sent - {r})
  }

  lemma ExampleClaim(w: World, worker: WorkerId)
    requires PcOf(w, worker) == Idle && CanClaim(w.table, "job", w.now, EXAMPLE_CFG)
    ensures ApplyRenew(EXAMPLE_CFG, EXAMPLE_SHIPS, ApplyClaim(EXAMPLE_CFG, w, worker, "job"), worker, 0.0) == Leased(w, worker)
  {
    var claimed := ApplyClaim(EXAMPLE_CFG, w, worker, "job");
    var row, claim := w.table.jobs["job"].row, ClaimOf(w.claims, "job") + 1;
    assert claimed == Goto(w.(table := WithRow(w.table, "job", Row(RUNNING, row.attempts + 1, row.availableAt, Some(worker), Some(w.now + 1), row.lastError)),
                              claims := w.claims["job" := claim]),
                           worker, Ready("job", row.attempts + 1, claim));
    assert "line" in EXAMPLE_SHIPS["job"].requested;
    assert claimed.pcs[worker := LookingUp("job", row.attempts + 1, claim)] == w.pcs[worker := LookingUp("job", row.attempts + 1, claim)];
    assert WithRow(claimed.table, "job", claimed.table.jobs["job"].row) == claimed.table;
  }

  lemma ExampleSent(w: World, worker: WorkerId, attempt: nat, claim: nat, remaining: int)
    requires PcOf(w, worker) == LookingUp("job", attempt, claim) && remaining >= 1
    requires forall f :: f in NewestPage(Fulfillments(OrderOf(w.orders, "order"))) ==> !Tracks(f, "track")
    ensures ApplyLookedUp(EXAMPLE_CFG, EXAMPLE_SHIPS, w, worker, true, Open(remaining), 0.0)
            == Goto(w.(sent := w.sent + {OwnRequest(worker, claim)}), worker, Creating("job", attempt, claim))
  {
    hide NewestPage, Tracks, OnError;
    ExamplePlan(Fulfillments(OrderOf(w.orders, "order")), remaining);
    hide PlanOf, CreatedLines, FlatGroups, Fulfillments;
  }

  lemma ExampleTimeout(w: World, worker: WorkerId, attempt: nat, claim: nat, remaining: int)
    requires PcOf(w, worker) == LookingUp("job", attempt, claim) && remaining >= 1
    requires forall f :: f in NewestPage(Fulfillments(OrderOf(w.orders, "order"))) ==> !Tracks(f, "track")
    ensures ApplyCallFailed(EXAMPLE_CFG, ApplyLookedUp(EXAMPLE_CFG, EXAMPLE_SHIPS, w, worker, true, Open(remaining), 0.0), worker, TIMEOUT, 0.0)
            == TimedOut(w, worker)
  {
    hide NewestPage, Tracks, OnError, ApplyLookedUp;
    ExampleSent(w, worker, attempt, claim, remaining);
    CallTimesOut(w.(sent := w.sent + {OwnRequest(worker, claim)}), worker, attempt, claim);
    hide ApplyCallFailed;
  }

  lemma CallTimesOut(w: World, worker: WorkerId, attempt: nat, claim: nat)
    ensures ApplyCallFailed(EXAMPLE_CFG, Goto(w, worker, Creating("job", attempt, claim)), worker, TIMEOUT, 0.0)
            == Goto(w, worker, OnError(EXAMPLE_CFG, "job", attempt, TIMEOUT, 0.0))
  {
    hide OnError;
    var pc := OnError(EXAMPLE_CFG, "job", attempt, TIMEOUT, 0.0);
    assert w.pcs[worker := Creating("job", attempt, claim)][worker := pc] == w.pcs[worker := pc];
  }

  lemma ExampleLands(w: World, worker: WorkerId, claim: nat, id: string)
    requires OwnRequest(worker, claim) in w.sent && Holds(w.table, "job", worker, w.now) && ClaimOf(w.claims, "job") == claim
    requires worker in w.pcs && PcOf(w, worker).Settling?
    ensures ApplyTakesEffect(EXAMPLE_SHIPS, w, OwnRequest(worker, claim), id) == Landed(w, OwnRequest(worker, claim), id)
  {
    assert w.pcs[worker := w.pcs[worker]] == w.pcs;
  }

  function Publish(actions: seq<Action>, worker: WorkerId, claim: nat, id: string, remaining: int): seq<Action> {
    actions + [ClaimJob(worker, "job")] + [Renew(worker, 0.0)] + [LookedUp(worker, true, Open(remaining), 0.0)]
    + [CallFailed(worker, TIMEOUT, 0.0)] + [TakesEffect(OwnRequest(worker, claim), id)]
  }

  lemma RunPublish(actions: seq<Action>, worker: WorkerId, claim: nat, id: string, remaining: int)
    ensures var w := Run(EXAMPLE_CFG, EXAMPLE_SHIPS, actions);
            var leased := ApplyRenew(EXAMPLE_CFG, EXAMPLE_SHIPS, ApplyClaim(EXAMPLE_CFG, w, worker, "job"), worker, 0.0);
            var sent := ApplyLookedUp(EXAMPLE_CFG, EXAMPLE_SHIPS, leased, worker, true, Open(remaining), 0.0);
            Run(EXAMPLE_CFG, EXAMPLE_SHIPS, Publish(actions, worker, claim, id, remaining))
            == ApplyTakesEffect(EXAMPLE_SHIPS, ApplyCallFailed(EXAMPLE_CFG, sent, worker, TIMEOUT, 0.0), OwnRequest(worker, claim), id)
  {
    var a1 := actions + [ClaimJob(worker, "job")];
    var a2 := a1 + [Renew(worker, 0.0)];
    var a3 := a2 + [LookedUp(worker, true, Open(remaining), 0.0)];
    var a4 := a3 + [CallFailed(worker, TIMEOUT, 0.0)];
    assert Publish(actions, worker, claim, id, remaining) == a4 + [TakesEffect(OwnRequest(worker, claim), id)];
    hide *;
    RunOnto(actions, ClaimJob(worker, "job"));
    RunOnto(a1, Renew(worker, 0.0));
    RunOnto(a2, LookedUp(worker, true, Open(remaining), 0.0));
    RunOnto(a3, CallFailed(worker, TIMEOUT, 0.0));
    RunOnto(a4, TakesEffect(OwnRequest(worker, claim), id));
  }

  lemma RunOnto(actions: seq<Action>, a: Action)
    ensures var w, next := Run(EXAMPLE_CFG, EXAMPLE_SHIPS, actions), Run(EXAMPLE_CFG, EXAMPLE_SHIPS, actions + [a]);
            && (a.ClaimJob? ==> next == ApplyClaim(EXAMPLE_CFG, w, a.worker, a.job))
            && (a.Renew? ==> next == ApplyRenew(EXAMPLE_CFG, EXAMPLE_SHIPS, w, a.worker, a.random))
            && (a.LookedUp? ==> next == ApplyLookedUp(EXAMPLE_CFG, EXAMPLE_SHIPS, w, a.worker, a.found, a.openOrders, a.random))
            && (a.CallFailed? ==> next == ApplyCallFailed(EXAMPLE_CFG, w, a.worker, a.failure, a.random))
            && (a.TakesEffect? ==> next == ApplyTakesEffect(EXAMPLE_SHIPS, w, a.request, a.fulfillmentId))
  {
    RunStep(EXAMPLE_CFG, EXAMPLE_SHIPS, actions, a);
    hide Run, ApplyClaim, ApplyRenew, ApplyLookedUp, ApplyTakesEffect, ApplyCallFailed;
  }

  lemma LeasedFacts(w: World, worker: WorkerId)
    requires CanClaim(w.table, "job", w.now, EXAMPLE_CFG) && w.sent == {} && w.table.jobs["job"].row.attempts < 7
    ensures "job" in w.table.jobs
    ensures PcOf(Leased(w, worker), worker) == LookingUp("job", w.table.jobs["job"].row.attempts + 1, ClaimOf(w.claims, "job") + 1)
    ensures Leased(w, worker).orders == w.orders
    ensures var late := TimedOut(Leased(w, worker), worker);
            var claim := ClaimOf(w.claims, "job") + 1;
            && OwnRequest(worker, claim) in late.sent && Holds(late.table, "job", worker, late.now) && ClaimOf(late.claims, "job") == claim
            && worker in late.pcs && PcOf(late, worker).Settling?
  {
    hide RetryPolicy.BackoffMs, StatusText;
  }

  /** One worker's publish, from a world where it can claim the job and the page shows nothing with the number. */
  lemma ExamplePublish(actions: seq<Action>, worker: WorkerId, claim: nat, id: string, remaining: int)
    requires var w := Run(EXAMPLE_CFG, EXAMPLE_SHIPS, actions);
             && PcOf(w, worker) == Idle && CanClaim(w.table, "job", w.now, EXAMPLE_CFG) && claim == ClaimOf(w.claims, "job") + 1
             && w.sent == {} && w.table.jobs["job"].row.attempts < 7
             && forall f :: f in NewestPage(Fulfillments(OrderOf(w.orders, "order"))) ==> !Tracks(f, "track")
    requires remaining >= 1
    ensures var w := Run(EXAMPLE_CFG, EXAMPLE_SHIPS, actions);
            && PcOf(Leased(w, worker), worker).LookingUp?
            && Run(EXAMPLE_CFG, EXAMPLE_SHIPS, Publish(actions, worker, claim, id, remaining))
               == Landed(TimedOut(Leased(w, worker), worker), OwnRequest(worker, claim), id)
  {
    var w := Run(EXAMPLE_CFG, EXAMPLE_SHIPS, actions);
    LeasedFacts(w, worker);
    hide *;
    RunPublish(actions, worker, claim, id, remaining);
    ExampleClaim(w, worker);
    ExampleTimeout(Leased(w, worker), worker, w.table.jobs["job"].row.attempts + 1, claim, remaining);
    ExampleLands(TimedOut(Leased(w, worker), worker), worker, claim, id);
  }

  /** Between the two publishes: the first worker crashes, a hundred other fulfilments arrive, the lease runs out. */
  function BetweenActions(): seq<Action> {
    [Crash("first"), OthersFulfill("order", Others()), Tick(1)]
  }

  lemma PageLimitMatters()
    ensures exists actions :: Produced(OrderOf(Run(EXAMPLE_CFG, EXAMPLE_SHIPS, actions).orders, "order"), "job") == 2
  {
    var actions := PageLimitRun();
    ExampleCount();
    hide *;
    assert Produced(OrderOf(Run(EXAMPLE_CFG, EXAMPLE_SHIPS, actions).orders, "order"), "job") == 2;
  }

  /** Two workers publish for the same job, with a hundred other fulfilments in between. */
  lemma PageLimitRun() returns (actions: seq<Action>)
    ensures OrderOf(Run(EXAMPLE_CFG, EXAMPLE_SHIPS, actions).orders, "order")
            == [Record(Own("f1"), Some("job"))] + OtherRecords(Others()) + [Record(Own("f2"), Some("job"))]
  {
    hide *;
    ExampleFirst();
    var a2 := Publish([Enqueue("job")], "first", 1, "f1", 2);
    ExampleBetween(a2);
    var a3 := a2 + BetweenActions();
    ExamplePublish(a3, "second", 2, "f2", 1);
    actions := Publish(a3, "second", 2, "f2", 1);
    LandedOrder(Run(EXAMPLE_CFG, EXAMPLE_SHIPS, a3), "second", 2, "f2");
  }

  lemma LandedOrder(w: World, worker: WorkerId, claim: nat, id: string)
    requires CanClaim(w.table, "job", w.now, EXAMPLE_CFG) && PcOf(Leased(w, worker), worker).LookingUp?
    ensures OrderOf(Landed(TimedOut(Leased(w, worker), worker), OwnRequest(worker, claim), id).orders, "order")
            == OrderOf(w.orders, "order") + [Record(Own(id), Some("job"))]
  {
    hide OnError;
  }

  function AfterFirst(): World {
    World(0, Table(map["job" := Job(Row(RUNNING, 1, 0, Some("first"), Some(1), None), None)], []),
          map["order" := [Record(Own("f1"), Some("job"))]], map["first" := OnError(EXAMPLE_CFG, "job", 1, TIMEOUT, 0.0)], map["job" := 1], {})
  }

  function JustEnqueued(): World { World(0, Table(map["job" := Job(Enqueued(0), None)], []), map[], map[], map[], {}) }

  lemma EnqueuedRun(cfg: Config, ships: Shipments)
    ensures Run(cfg, ships, [Enqueue("job")]) == JustEnqueued()
  {
    RunStep(cfg, ships, [], Enqueue("job"));
    assert Run(cfg, ships, []) == INITIAL;
    assert [] + [Enqueue("job")] == [Enqueue("job")];
    hide Run;
  }

  lemma ExampleFirst()
    ensures Run(EXAMPLE_CFG, EXAMPLE_SHIPS, Publish([Enqueue("job")], "first", 1, "f1", 2)) == AfterFirst()
  {
    hide *;
    EnqueuedRun(EXAMPLE_CFG, EXAMPLE_SHIPS);
    EnqueuedFacts();
    ExamplePublish([Enqueue("job")], "first", 1, "f1", 2);
    ExampleFirstWorld();
  }

  lemma EnqueuedFacts()
    ensures var w := JustEnqueued();
            && PcOf(w, "first") == Idle && CanClaim(w.table, "job", w.now, EXAMPLE_CFG) && 1 == ClaimOf(w.claims, "job") + 1
            && w.sent == {} && w.table.jobs["job"].row.attempts < 7
            && forall f :: f in NewestPage(Fulfillments(OrderOf(w.orders, "order"))) ==> !Tracks(f, "track")
  {
    hide Tracks;
    assert NewestPage(Fulfillments(OrderOf(map[], "order"))) == [];
  }

  lemma ExampleFirstWorld()
    ensures "job" in JustEnqueued().table.jobs && PcOf(Leased(JustEnqueued(), "first"), "first").LookingUp?
    ensures Landed(TimedOut(Leased(JustEnqueued(), "first"), "first"), OwnRequest("first", 1), "f1") == AfterFirst()
  {
    hide OnError;
    var leased := Leased(JustEnqueued(), "first");
    assert leased == World(0, Table(map["job" := Job(Row(RUNNING, 1, 0, Some("first"), Some(1), None), None)], []), map[],
                           map["first" := LookingUp("job", 1, 1)], map["job" := 1], {});
    var pc := OnError(EXAMPLE_CFG, "job", 1, TIMEOUT, 0.0);
    assert leased.pcs["first" := pc] == map["first" := pc];
    assert leased.sent + {OwnRequest("first", 1)} - {OwnRequest("first", 1)} == {};
    assert OrderOf(map[], "order") + [Record(Own("f1"), Some("job"))] == [Record(Own("f1"), Some("job"))];
  }

  lemma ExampleCount()
    ensures Produced([Record(Own("f1"), Some("job"))] + OtherRecords(Others()) + [Record(Own("f2"), Some("job"))], "job") == 2
  {
    var own1, own2 := [Record(Own("f1"), Some("job"))], [Record(Own("f2"), Some("job"))];
    OthersProduceNothing(OtherRecords(Others()), "job");
    ProducedAppend(own1, OtherRecords(Others()), "job");
    ProducedAppend(own1 + OtherRecords(Others()), own2, "job");
    assert own1[..0] == [] && own2[..0] == [];
  }

  function Between(w: World): World {
    var hidden := ApplyOthers(ApplyCrash(w, "first"), "order", Others());
    hidden.(now := hidden.now + 1)
  }

  lemma RunBetween(actions: seq<Action>)
    ensures Run(EXAMPLE_CFG, EXAMPLE_SHIPS, actions + BetweenActions()) == Between(Run(EXAMPLE_CFG, EXAMPLE_SHIPS, actions))
  {
    var b1 := actions + [Crash("first")];
    var b2 := b1 + [OthersFulfill("order", Others())];
    assert actions + BetweenActions() == b2 + [Tick(1)];
    hide Run, BetweenActions, Others, ApplyOthers, ApplyCrash;
    RunStep(EXAMPLE_CFG, EXAMPLE_SHIPS, actions, Crash("first"));
    RunStep(EXAMPLE_CFG, EXAMPLE_SHIPS, b1, OthersFulfill("order", Others()));
    RunStep(EXAMPLE_CFG, EXAMPLE_SHIPS, b2, Tick(1));
  }

  /** After it the second worker can claim the job, and the page shows nothing with the number. */
  lemma ExampleBetween(actions: seq<Action>)
    requires Run(EXAMPLE_CFG, EXAMPLE_SHIPS, actions) == AfterFirst()
    ensures var w := Run(EXAMPLE_CFG, EXAMPLE_SHIPS, actions + BetweenActions());
            && PcOf(w, "second") == Idle && CanClaim(w.table, "job", w.now, EXAMPLE_CFG) && ClaimOf(w.claims, "job") == 1
            && w.sent == {} && w.table.jobs["job"].row.attempts < 7
            && OrderOf(w.orders, "order") == [Record(Own("f1"), Some("job"))] + OtherRecords(Others())
            && forall f :: f in NewestPage(Fulfillments(OrderOf(w.orders, "order"))) ==> !Tracks(f, "track")
  {
    RunBetween(actions);
    PageOfOthers();
    hide OnError, Run, NewestPage, Fulfillments, Tracks, OtherRecords, Others;
  }

  /** The newest page shows only other fulfilments. */
  lemma PageOfOthers()
    ensures forall f :: f in NewestPage(Fulfillments([Record(Own("f1"), Some("job"))] + OtherRecords(Others()))) ==> !Tracks(f, "track")
  {
    var all := Fulfillments([Record(Own("f1"), Some("job"))] + OtherRecords(Others()));
    assert |all| == 101 && forall i :: 1 <= i < 101 ==> all[i] == OTHER;
    assert !Tracks(OTHER, "track");
    hide Fulfillments, Tracks, OtherRecords, Others;
    forall f | f in NewestPage(all) ensures f == OTHER {
      var i :| 0 <= i < |NewestPage(all)| && NewestPage(all)[i] == f;
      assert f == all[100 - i];
    }
  }
}
