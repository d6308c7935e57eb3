/** What jobs end as: the fulfilment a SUCCEEDED job names, the recorded outcomes, and jobs that never end. */
module FulfillmentOutcome {
  import opened Lease
  import opened FulfillmentPublisher
  import opened FulfillmentStore
  import opened FulfillmentProtocol

  /** A SUCCEEDED job names a fulfilment of its order that ships exactly the requested quantities, or one that
      the recovery took for such; the latter ships exactly them exactly when it has at most 100 nodes and no line twice. */
  lemma SucceededNamesRequestedLines(cfg: Config, ships: Shipments, actions: seq<Action>, job: Id)
    requires job in ships && job in Run(cfg, ships, actions).table.jobs
    requires Run(cfg, ships, actions).table.jobs[job].row.status == SUCCEEDED
    ensures var id := Run(cfg, ships, actions).table.jobs[job].fulfillmentId;
            var records := OrderOf(Run(cfg, ships, actions).orders, ships[job].orderId);
            id.Some? && exists k :: 0 <= k < |records| && records[k].f.id == id.value
                                    && (|| Ships(records[k].f.lines, ships[job].requested)
                                        || (&& VisibleLines(records[k].f) == ships[job].requested
                                            && (Positive(records[k].f.lines) ==>
                                                  (Ships(records[k].f.lines, ships[job].requested)
                                                   <==> |records[k].f.lines| <= 100 && DistinctLines(records[k].f.lines)))))
  {
    RunOk(cfg, ships, actions);
    var w := Run(cfg, ships, actions);
    assert JobOk(cfg, ships, w.orders, job, w.table.jobs[job]);
    var records := OrderOf(w.orders, ships[job].orderId);
    var id := w.table.jobs[job].fulfillmentId.value;
    var k :| 0 <= k < |records| && records[k].f.id == id
             && (Ships(records[k].f.lines, ships[job].requested) || LooksRight(records[k].f, ships[job].requested));
    assert LooksRight(records[k].f, ships[job].requested) ==> VisibleLines(records[k].f) == ships[job].requested;
  }

  lemma EnqueueKeepsEvents(w: World, job: Id)
    requires EventsOk(w.table)
    ensures EventsOk(ApplyEnqueue(w, job).table)
  {
    if job !in w.table.jobs { assert !IsClosed(w.table, job); }
    hide Outcomes, Tells;
  }

  lemma StepKeepsEvents(cfg: Config, ships: Shipments, w: World, a: Action)
    requires EventsOk(w.table)
    ensures EventsOk(Apply(cfg, ships, w, a).table)
  {
    LookupKeepsTable(cfg, ships, w, a);
    hide EventsOk, OnError, ApplyLookedUp, ApplyTakesEffect, ApplyOthers, ApplyEnqueue, Success, ExtendLease, Claim, CanClaim, Retry, Defer, Fail;
    match a
    case Enqueue(job) => EnqueueKeepsEvents(w, job);
    case ClaimJob(worker, job) => if CanClaim(w.table, job, w.now, cfg) { ClaimKeepsEvents(w.table, job, worker, w.now, cfg); }
    case Heartbeat(worker, job) => ExtendKeepsEvents(w.table, job, worker, w.now, cfg);
    case Renew(worker, _) =>
      var pc := PcOf(w, worker);
      if pc.Ready? { ExtendKeepsEvents(w.table, pc.job, worker, w.now, cfg); }
    case Report(worker, _, _) =>
      var pc := PcOf(w, worker);
      if pc.Reporting? { SuccessKeepsEvents(w.table, pc.job, worker, w.now, pc.fulfillmentId, pc.recovered); }
    case Settle(worker, _) =>
      var pc := PcOf(w, worker);
      if pc.Settling? {
        match pc.settlement
        case DeferWith(delayMs, reason) => ReleaseKeepsEvents(w.table, pc.job, worker, w.now, delayMs, reason);
        case RetryWith(delayMs, code) => ReleaseKeepsEvents(w.table, pc.job, worker, w.now, delayMs, code);
        case FailWith(message) => FailKeepsEvents(w.table, pc.job, worker, w.now, message);
      }
    case _ =>
  }

  lemma {:induction false} RunEvents(cfg: Config, ships: Shipments, actions: seq<Action>)
    ensures EventsOk(Run(cfg, ships, actions).table)
  {
    if actions != [] {
      RunEvents(cfg, ships, actions[..|actions| - 1]);
      hide EventsOk, Apply;
      StepKeepsEvents(cfg, ships, Run(cfg, ships, actions[..|actions| - 1]), actions[|actions| - 1]);
    }
  }

  /** In every run a closed job has exactly one event, an open one has none, and the event of a SUCCEEDED job
      names the fulfilment the job names. */
  lemma OneOutcomeEvent(cfg: Config, ships: Shipments, actions: seq<Action>, job: Id)
    ensures var t := Run(cfg, ships, actions).table;
            && Outcomes(t.events, job) == (if job in t.jobs && t.jobs[job].row.status in {SUCCEEDED, FAILED} then 1 else 0)
            && (forall e :: e in t.events && e.job == job ==>
                  && job in t.jobs
                  && (t.jobs[job].row.status == FAILED <==> e.event == FAILED_EVENT)
                  && (e.event != FAILED_EVENT ==> t.jobs[job].row.status == SUCCEEDED && e.fulfillmentId == t.jobs[job].fulfillmentId))
  {
    RunEvents(cfg, ships, actions);
    hide Run, Outcomes;
  }

  // ---- where the code falls short of its intent, and exactly when ----

  /** The worker is about to defer a claim past the last attempt, and still holds its lease. */
  ghost predicate LateDeferral(cfg: Config, w: World, a: Action) {
    && a.Settle? && !a.reply.FailedBefore?
    && var pc := PcOf(w, a.worker);
       && pc.Settling? && pc.settlement.DeferWith? && pc.job in w.table.jobs
       && Holds(w.table, pc.job, a.worker, w.now) && w.table.jobs[pc.job].row.attempts > cfg.maxAttempts
  }

  ghost predicate NoneStranded(cfg: Config, t: Table) {
    forall job :: job in t.jobs && t.jobs[job].row.status == PENDING ==> t.jobs[job].row.attempts < cfg.maxAttempts
  }

  lemma SettleStrandsNone(cfg: Config, ships: Shipments, w: World, a: Action)
    requires Inv(cfg, ships, w) && NoneStranded(cfg, w.table) && a.Settle? && !LateDeferral(cfg, w, a)
    ensures NoneStranded(cfg, Apply(cfg, ships, w, a).table)
  {
    PcAt(cfg, ships, w, a.worker);
    var pc := PcOf(w, a.worker);
    if pc.Settling? && pc.job in w.table.jobs { assert JobOk(cfg, ships, w.orders, pc.job, w.table.jobs[pc.job]); }
    hide Inv, JobsOk, PcsOk, OrdersOk;
  }

  lemma StepStrandsNone(cfg: Config, ships: Shipments, w: World, a: Action)
    requires Inv(cfg, ships, w) && cfg.maxAttempts > 0 && NoneStranded(cfg, w.table) && !LateDeferral(cfg, w, a)
    ensures NoneStranded(cfg, Apply(cfg, ships, w, a).table)
  {
    LookupKeepsTable(cfg, ships, w, a);
    hide OnError, ApplyLookedUp, ApplyTakesEffect, ApplyOthers, ApplySettle, LateDeferral, Inv, NoneStranded, Claim, ExtendLease, Success, CanClaim;
    match a
    case Settle(_, _) => SettleStrandsNone(cfg, ships, w, a);
    case Enqueue(job) => EnqueueStrandsNone(cfg, w, job);
    case ClaimJob(worker, job) => OpsStrandNone(cfg, w.table, job, worker, w.now, "", false);
    case Heartbeat(worker, job) => OpsStrandNone(cfg, w.table, job, worker, w.now, "", false);
    case Renew(worker, _) =>
      var pc := PcOf(w, worker);
      if pc.Ready? { OpsStrandNone(cfg, w.table, pc.job, worker, w.now, "", false); }
    case Report(worker, _, _) =>
      var pc := PcOf(w, worker);
      if pc.Reporting? { OpsStrandNone(cfg, w.table, pc.job, worker, w.now, pc.fulfillmentId, pc.recovered); }
    case _ =>
  }

  lemma EnqueueStrandsNone(cfg: Config, w: World, job: Id)
    requires cfg.maxAttempts > 0 && NoneStranded(cfg, w.table)
    ensures NoneStranded(cfg, ApplyEnqueue(w, job).table)
  {
  }

  lemma OpsStrandNone(cfg: Config, t: Table, job: Id, worker: WorkerId, now: int, id: string, recovered: bool)
    requires NoneStranded(cfg, t)
    ensures CanClaim(t, job, now, cfg) ==> NoneStranded(cfg, Claim(t, job, worker, now, cfg))
    ensures NoneStranded(cfg, ExtendLease(t, job, worker, now, cfg).0)
    ensures NoneStranded(cfg, Success(t, job, worker, now, id, recovered).0)
  {
  }

  lemma {:induction false} NoLateDeferralNoneStranded(cfg: Config, ships: Shipments, actions: seq<Action>)
    requires cfg.maxAttempts > 0
    requires forall i :: 0 <= i < |actions| ==> !LateDeferral(cfg, Run(cfg, ships, actions[..i]), actions[i])
    ensures NoneStranded(cfg, Run(cfg, ships, actions).table)
  {
    if actions != [] {
      var n := |actions| - 1;
      forall i | 0 <= i < n ensures !LateDeferral(cfg, Run(cfg, ships, actions[..n][..i]), actions[..n][i]) {
        assert actions[..n][..i] == actions[..i];
      }
      NoLateDeferralNoneStranded(cfg, ships, actions[..n]);
      RunOk(cfg, ships, actions[..n]);
      assert !LateDeferral(cfg, Run(cfg, ships, actions[..n]), actions[n]);
      StepStrandsNone(cfg, ships, Run(cfg, ships, actions[..n]), actions[n]);
    }
  }

  ghost predicate Stranded(cfg: Config, t: Table, job: Id) {
    job in t.jobs && t.jobs[job].row.status == PENDING && t.jobs[job].row.attempts >= cfg.maxAttempts
  }

  lemma OpsKeepStranded(cfg: Config, t: Table, job: Id, other: Id, worker: WorkerId, now: int)
    requires Stranded(cfg, t, job)
    ensures CanClaim(t, other, now, cfg) ==> Stranded(cfg, Claim(t, other, worker, now, cfg), job)
    ensures Stranded(cfg, ExtendLease(t, other, worker, now, cfg).0, job)
  {
  }

  lemma EndsKeepStranded(cfg: Config, t: Table, job: Id, other: Id, worker: WorkerId, now: int, id: string, recovered: bool, settlement: Settlement)
    requires Stranded(cfg, t, job)
    ensures Stranded(cfg, Success(t, other, worker, now, id, recovered).0, job)
    ensures Stranded(cfg, Settled(t, other, worker, now, settlement), job)
  {
  }

  lemma StrandedStays(cfg: Config, ships: Shipments, w: World, a: Action, job: Id)
    requires Stranded(cfg, w.table, job)
    ensures Stranded(cfg, Apply(cfg, ships, w, a).table, job)
  {
    LookupKeepsTable(cfg, ships, w, a);
    hide OnError, ApplyLookedUp, ApplyTakesEffect, ApplyOthers;
    match a
    case Enqueue(_) =>
    case ClaimJob(worker, other) => OpsKeepStranded(cfg, w.table, job, other, worker, w.now);
    case Heartbeat(worker, other) => OpsKeepStranded(cfg, w.table, job, other, worker, w.now);
    case Renew(worker, _) =>
      var pc := PcOf(w, worker);
      if pc.Ready? { OpsKeepStranded(cfg, w.table, job, pc.job, worker, w.now); }
      hide ExtendLease, Stranded;
    case Report(worker, _, _) =>
      var pc := PcOf(w, worker);
      if pc.Reporting? { EndsKeepStranded(cfg, w.table, job, pc.job, worker, w.now, pc.fulfillmentId, pc.recovered, FailWith("")); }
      hide Success, Stranded;
    case Settle(worker, _) =>
      var pc := PcOf(w, worker);
      if pc.Settling? { EndsKeepStranded(cfg, w.table, job, pc.job, worker, w.now, "", false, pc.settlement); }
      hide Settled, Stranded;
    case _ => hide Stranded;
  }

  /** A deferral of the claim past the last attempt gives back the attempt that made the job claimable:
      for the rest of the run nobody can claim it, however long it waits. */
  lemma {:induction false} LateDeferralStrands(cfg: Config, ships: Shipments, actions: seq<Action>, i: nat, k: nat, now: int)
    requires i < k <= |actions| && LateDeferral(cfg, Run(cfg, ships, actions[..i]), actions[i])
    ensures var job := PcOf(Run(cfg, ships, actions[..i]), actions[i].worker).job;
            var table := Run(cfg, ships, actions[..k]).table;
            job in table.jobs && table.jobs[job].row.status == PENDING && !CanClaim(table, job, now, cfg)
    decreases k
  {
    LateDeferralStranded(cfg, ships, actions, i, k);
  }

  lemma {:induction false} LateDeferralStranded(cfg: Config, ships: Shipments, actions: seq<Action>, i: nat, k: nat)
    requires i < k <= |actions| && LateDeferral(cfg, Run(cfg, ships, actions[..i]), actions[i])
    ensures Stranded(cfg, Run(cfg, ships, actions[..k]).table, PcOf(Run(cfg, ships, actions[..i]), actions[i].worker).job)
    decreases k
  {
    assert actions[..k][..k - 1] == actions[..k - 1];
    if i < k - 1 {
      LateDeferralStranded(cfg, ships, actions, i, k - 1);
      StrandedStays(cfg, ships, Run(cfg, ships, actions[..k - 1]), actions[k - 1], PcOf(Run(cfg, ships, actions[..i]), actions[i].worker).job);
    }
  }
}
