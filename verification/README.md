# Models of a print-on-demand store builder

A print-on-demand store builder asks a language model for a brand profile, picks products from a
catalogue, draws its own mark, and pushes shipments back to the shop. Its hard logic sits in a few
self-contained places: job tables shared by many workers that may crash or finish late, a rasteriser and
a PNG writer, readers for untrusted image headers, append-only histories, a rotating credential, and
money rules. These Dafny modules model that logic and state what it guarantees, over all inputs and all
runs. `dafny verify dfyconfig.toml` checks the whole project.

How the pieces fit together:

- **Leased jobs.** `Lease` holds the row arithmetic that the three job stores share. `GenerationDatabase`,
  `CandidateStore` and `FulfillmentStore` give each store operation as a function of the table, and a class
  whose methods update the table in place and are proved to compute that function;
  `MemoryGenerationQueue` does the same for the in-memory queue. `GenerationProtocol`, `CandidateProtocol`
  and `FulfillmentProtocol` are transition systems over those functions: a run is any list of actions, and
  every awaited call of a worker is one action, so the theorems cover every interleaving, crash, lost
  response and arbitrarily late worker. A create request at Shopify is on its own once sent: it may take
  effect after its caller saw an error or died, as long as the claim it was sent under holds its lease.
  `GenerationHistory` adds what the revision tables hold after any such run; `GenerationOutcome`,
  `CandidateOutcome` and `FulfillmentAttempts` say, from every reachable world, how an attempt begins and what
  it comes to, error by error; `FulfillmentOnce` counts the fulfilments of a shipment, `FulfillmentOutcome`
  says what jobs end as, `FulfillmentRuns` has the runs in which the code falls short. `FulfillmentPublisher`
  is the publisher's own decision: recovery by tracking number, then allocation of the requested lines.
- **The mark.** `Raster` has the rasteriser that paints bounding boxes in place and the plain definition of
  a pixel; `MarkDistance` says what that pixel shows, in terms of the points of the drawn lines alone;
  `MarkSymmetry` has the mark's geometry; `Crc32`, `CrcDivision` and `CrcDetection` have the CRC; `Png` has the
  writer, a decoder written from RFC 2083 and the inspector's header reader; `MarkRenderer` puts them
  together. `Jpeg` and `FileInspector` are the other header reader and the reading of a file's first bytes.
- **Histories.** `BrandStore` and `BrandHistory` are the in-memory brand store and its runs, `BrandOperations`
  has what each operation stores; `MigrationSql` and `Migrations` are the migration runner and the independent
  verifier.
- **Credentials and login.** `TokenProvider` is one caller's path through the access token provider,
  `TokenRotation` is many callers under the rotation lock, `TokenRefresh` one of them undisturbed,
  `LoginLimiter` is the sliding window.
- **Money.** `ProductScoring`, `Evaluator`, `DecimalPrice`, `OrderPolicy`.

Conventions. Times are whole milliseconds. Geometry, rates and weights are exact reals; the square root is
a parameter that only has to be a non-negative root. Random draws, clocks, generated ids and answers of
remote services are arguments of the actions. A database transaction or a row-locking statement is one
step. All workers of one kind share one positive attempt limit, as the configuration requires
(src/config.ts:85-91), and a worker handles one job at a time.

Where the code does less than its intent, the model keeps the code:

- The publisher looks at the newest 100 fulfilments of an order, and knows its own by the tracking number
  only. A shipment is fulfilled more than once exactly when some lookup, while an earlier fulfilment of the
  job was out of sight (100 or more newer ones, or no tracking number), decided to create and that request
  took effect (`FulfillmentOnce.AtMostOneFulfillment`; such a run:
  `FulfillmentRuns.PageLimitMatters`). However many
  fulfilments others made before, or make later, an order whose own fulfilment is still on the page is safe.
- Line nodes are read into a map in which the last node of a line wins. A reused fulfilment with two nodes
  of one line passes for half of what it ships (`FulfillmentPublisher.TwoNodesPassForOne`); with positive
  quantities the reading is right exactly when it has at most 100 nodes and no line twice
  (`LooksRightExactly`). The shipment's items are read the same way (`RequestedExactly`).
- A fulfilment worker that claims a job past its last attempt and then defers it gives back an attempt the
  job needed to be claimable, and the job stays PENDING for ever (`LateDeferralStrands`, `StrandedRun`);
  without such a deferral no PENDING job is stranded (`NoLateDeferralNoneStranded`).
- A RUNNING job can be claimed once past the maximum, and not again. A worker that crashes after that claim
  leaves the job RUNNING for ever: an open job can be claimed at some time exactly while its attempts do not
  exceed the maximum (`GenerationOutcome.OpenIsClaimable`, `CandidateOutcome.OpenIsClaimable`, and for PENDING
  fulfilment jobs stay below it, `FulfillmentAttempts.OpenIsClaimable`; such a run:
  `GenerationOutcome.StrandedJob`).
- The JPEG reader takes the size from a frame header even if the length in it does not cover the size, and the
  PNG reader checks neither the header's length nor its CRC (`Jpeg.AnswersTheFirstFrame`, `Png.InspectorAnswers`).
- A migration whose callback throws is committed; running the plan again passes it by, so
  prefix-then-full equals full exactly when no callback throws in the prefix
  (`Migrations.PrefixThenFull`; such a run: `ThrowingCallbackDiffers`).
- A refresh that dies around its exchange loses the provider's newest pair: after the exchange and before the
  store, which includes a lost or unusable answer and an `upsert` that fails, or before the exchange of a
  request that is still on its way. Then no exchange ever succeeds again (`TokenRotation.LostForGood`), and
  a caller is turned down exactly when one asks after such a loss (`TurnedDownExactly`; such runs:
  `DyingCallLosesConnection`).
- Sums compare currencies as they are written and normalise only the result, so a sum in parts can differ from
  the sum at once, exactly when the parts are in different spellings of one code (`OrderPolicy.SumInParts`,
  `MixedCaseClashes`); amounts made by `money` are safe (`MadeSumInParts`).

## Model

| member | source | states |
|---|---|---|
| RetryPolicy.BackoffBounds | src/jobs/retry-policy.ts:32-36 | every retry delay lies between 4 s and 6 min, and for the same random draw a later attempt never waits less |
| RetryPolicy.BackoffIsDelay | src/jobs/retry-policy.ts:32-36 | the delay is 5 s, doubled with every attempt after the first up to 5 min, jittered by a fifth either way and rounded |
| RetryPolicy.ClassifiedExactly | src/jobs/retry-policy.ts:14-30 | a failure may be retried exactly if it is no schema error and has status 408, 409, 429 or at least 500, or one of the listed names or codes; and the code each failure is recorded with |
| GenerationDatabase.BrandDatabase.InsertRevision | src/brand/postgres-store.ts:99-166 | submission in one transaction: an earlier key gives back its revision, otherwise the revision with its answers and the next number of the profile, its PENDING job and its event appear together |
| GenerationDatabase.SubmissionAddsOne | src/brand/postgres-store.ts:99-166 | a submission to an active workspace finds or makes its profile; an earlier key adds nothing more, a new one exactly one generating revision with the answers and the next number, its due job and its event; refused exactly for an unknown or an inactive workspace |
| GenerationDatabase.EditAddsOne | src/brand/postgres-store.ts:183-227 | an edit is accepted exactly for a completed base; it leaves every revision alone and adds a copy with the base's answers, numbered after all of the profile, announced for review and ready to be approved |
| GenerationDatabase.BrandDatabase.CompleteRevision | src/brand/postgres-store.ts:229-272 | completion is guarded by the revision status alone and moves revision, job and outbox together |
| GenerationDatabase.FirstOutcomeWins | src/brand/postgres-store.ts:229-293 | of a completion and a failure of one revision the first to commit refuses the other, and itself again |
| GenerationDatabase.ApprovedIsTheOnlyOne | src/brand/postgres-store.ts:295-340 | after an approval the profile's approved revision is this one and no other; the one before is superseded and nothing else changes |
| GenerationDatabase.BrandDatabase.ClaimOne | src/jobs/postgres-generation-queue.ts:15-45 | the claimed row was claimable and becomes RUNNING for this worker with one more attempt; nothing is claimed only if nothing is claimable |
| GenerationDatabase.QueueFences | src/jobs/postgres-generation-queue.ts:47-95 | a heartbeat is accepted exactly from the owner of a live lease, a retry exactly from the owner, an acknowledgement exactly from the owner or for a job already closed the same way; each touches one row, a refusal none |
| GenerationDatabase.ClaimFencesOthers | src/jobs/postgres-generation-queue.ts:15-95 | from a claim on, no other worker's heartbeat, retry or acknowledgement is accepted or changes anything |
| GenerationDatabase.RetriedIsNobodys | src/jobs/postgres-generation-queue.ts:57-69 | a retried job is nobody's, and can be claimed exactly from its due time on while attempts are left |
| GenerationDatabase.LateWorkerFindsOutcome | src/jobs/postgres-generation-queue.ts:71-95 | once a revision completed, a success is acknowledged to whoever asks and changes nothing, and nobody can claim, extend, retry or fail the job; after a failure likewise |
| MemoryGenerationQueue.MemoryGenerationJobQueue.ClaimEarliest | src/jobs/memory-generation-queue.ts:32-50 | the in-memory claim takes the earliest claimable job and claims it, without noting an expired lease; it returns nothing only when nothing is claimable |
| MemoryGenerationQueue.MemoryGenerationJobQueue.Extend | src/jobs/memory-generation-queue.ts:52-57 | the in-memory heartbeat computes the database heartbeat |
| MemoryGenerationQueue.MemoryGenerationJobQueue.Requeue | src/jobs/memory-generation-queue.ts:59-68 | the in-memory retry computes the database retry |
| MemoryGenerationQueue.MemoryGenerationJobQueue.AckSuccess | src/jobs/memory-generation-queue.ts:70-77 | the in-memory success acknowledgement computes the database one |
| MemoryGenerationQueue.MemoryGenerationJobQueue.AckFailure | src/jobs/memory-generation-queue.ts:79-87 | the in-memory failure acknowledgement computes the database one |
| GenerationProtocol.JobMirrorsRevision | src/jobs/generation-worker.ts:22-82 | in every run a job is PENDING or RUNNING exactly while its revision is GENERATING, FAILED exactly when it is GENERATION_FAILED, SUCCEEDED otherwise; each such revision has exactly one job |
| GenerationProtocol.OneReviewEvent | src/brand/postgres-store.ts:229-272 | in every run a completed revision has exactly one review-required event and no other id has any |
| GenerationProtocol.LeavesGeneratingOnce | src/brand/service.ts:101-116 | whatever stale workers still finish, a revision leaves GENERATING at most once |
| GenerationProtocol.OutcomeIsFinal | src/brand/postgres-store.ts:229-293 | the first recorded outcome stays for the rest of the run, with its profile |
| GenerationProtocol.RevisionHistory | src/brand/postgres-store.ts:229-340 | between any two moments of a run a revision keeps its profile, number, answers and key, and its status only moves forward: GENERATING, then GENERATION_FAILED for good, or REVIEW_REQUIRED, APPROVED, SUPERSEDED in this order |
| GenerationProtocol.PendingIsClaimable | src/jobs/postgres-generation-queue.ts:15-45 | attempts never pass max + 1, and a due PENDING job can be claimed by any worker |
| GenerationProtocol.GeneratorCallBound | src/jobs/generation-worker.ts:30-75 | over a whole run the paid generator is called at most maxAttempts times for one job |
| GenerationOutcome.ErrorDecides | src/jobs/generation-worker.ts:54-74 | in every run, whatever the attempt of the worker that owns the job throws, it is put back PENDING, due in 4 s to 6 min with its attempts, exactly if the error is transient and attempts are left; otherwise revision and job have failed with the recorded code. The conditions on the error are written out |
| GenerationOutcome.AnswerCompletes | src/jobs/generation-worker.ts:55-78 | in every run an answer that fits the schema, stored and acknowledged by the owner, is the result of the revision, up for review and announced, and the job has succeeded |
| GenerationOutcome.ResultsAreSourced | src/brand/service.ts:101-116 | every result in the database was an answer that fits the schema to a call for that revision, or was completed or edited elsewhere; an answer against the schema never becomes one |
| GenerationOutcome.ClaimBegins | src/jobs/generation-worker.ts:22-55 | in every run an idle worker takes a due job, or one whose lease ran out, under a new lease with one more attempt, and calls the generator for it |
| GenerationOutcome.ExhaustedFails | src/jobs/generation-worker.ts:30-40 | a job whose last attempt let its lease run out is claimed once more and failed as LEASE_EXHAUSTED, without a call of the generator |
| GenerationOutcome.OpenIsClaimable | src/jobs/postgres-generation-queue.ts:15-45 | in every run an open job can be claimed at some time exactly while its attempts do not exceed the maximum |
| GenerationOutcome.CrashAfterExhaustion | src/jobs/generation-worker.ts:30-40 | a worker that crashes after the exhausting claim leaves a RUNNING job of a GENERATING revision that nobody can ever claim |
| GenerationOutcome.StrandedJob | src/jobs/generation-worker.ts:22-40 | such a run |
| GenerationHistory.RevisionsAreNumbered | src/brand/postgres-store.ts:127-137 | in every run the revisions of a profile, submitted or edited, carry exactly the numbers from 1 to the last, each once |
| GenerationHistory.OneApprovedRevision | src/brand/postgres-store.ts:295-340 | in every run a profile has at most one approved revision |
| GenerationHistory.ResubmissionAddsNothing | src/brand/postgres-store.ts:123-125 | submitting again with a key the profile has used, any time later, inserts nothing, and no two revisions of a profile have one key |
| CandidateStore.MemoryCandidateJobStore.Enqueue | src/candidates/memory-job-store.ts:23-25 | a new job appears PENDING and due, other rows untouched |
| CandidateStore.MemoryCandidateJobStore.ClaimFirst | src/candidates/memory-job-store.ts:27-39 | the first claimable job is claimed; nothing is claimed only when nothing is claimable |
| CandidateStore.MemoryCandidateJobStore.Extend | src/candidates/memory-job-store.ts:47-52 | a lease grows only for its owner and only before it ends |
| CandidateStore.MemoryCandidateJobStore.CompleteJob | src/candidates/memory-job-store.ts:54-62 | results are stored with SUCCEEDED only by the owner under a live lease, otherwise nothing changes |
| CandidateStore.MemoryCandidateJobStore.RetryJob | src/candidates/memory-job-store.ts:64-73 | the owner puts the job back with its attempt spent |
| CandidateStore.MemoryCandidateJobStore.DeferJob | src/candidates/memory-job-store.ts:74-75 | the owner puts the job back and the attempt is given back |
| CandidateStore.MemoryCandidateJobStore.FailJob | src/candidates/memory-job-store.ts:77-85 | the owner closes the job as FAILED |
| CandidateProtocol.CompletedOnceByLatestClaimant | src/candidates/postgres-job-store.ts:59-120 | in every run results are recorded at most once per job, by its latest claimant, before the end of the lease it then held |
| CandidateProtocol.AttemptsBalance | src/candidates/worker.ts:25-89 | attempts equals claims minus deferrals and never exceeds max + 1; SUCCEEDED means recorded results; every due PENDING job can be claimed |
| CandidateProtocol.ResultsAreFinal | src/candidates/memory-job-store.ts:54-85 | recorded results and finished jobs are never changed later |
| CandidateOutcome.ErrorDecides | src/candidates/worker.ts:66-84 | in every run, whatever the attempt of the worker that owns the job throws: a missing connection is waited for 30 s and a 429 as long as it says, both with the attempt given back; an error without a status, a 408 or one of at least 500 spends the attempt while any is left; everything else fails the job, with the recorded code |
| CandidateOutcome.SnapshotCompletes | src/candidates/worker.ts:58-61 | in every run a catalogue that arrives while the owner's lease runs is the job's recorded result |
| CandidateOutcome.ClaimBegins | src/candidates/worker.ts:25-58 | in every run an idle worker takes a due job, or one whose lease ran out, under a new lease with one more attempt, and goes on to fetch the catalogue |
| CandidateOutcome.ExhaustedFails | src/candidates/worker.ts:33-39 | a job whose last attempt let its lease run out is claimed once more and failed as LEASE_EXHAUSTED |
| CandidateOutcome.OpenIsClaimable | src/candidates/memory-job-store.ts:27-39 | in every run an open job can be claimed at some time exactly while its attempts do not exceed the maximum |
| FulfillmentPublisher.Allocate | src/fulfillment/shopify-publisher.ts:7 | the nested loops over fulfilment orders pick what the plain definition picks, and refuse a short line or a missing line; every group names the order its items are of, and the orders come in their own order, none twice |
| FulfillmentPublisher.AllocateOrder | src/fulfillment/shopify-publisher.ts:7 | one fulfilment order: its items take their lines out of the wanted map in order |
| FulfillmentPublisher.GroupsAreThePicks | src/fulfillment/shopify-publisher.ts:7 | flattening the groups gives the picks in the order of the items |
| FulfillmentPublisher.AllocationExact | src/fulfillment/shopify-publisher.ts:7 | if no line is short or missing, the groups hold every requested line once, in full, at its first occurrence and within what remains; each is for the order its items are of |
| FulfillmentPublisher.GroupsArePlaced | src/fulfillment/shopify-publisher.ts:7 | every group is for one order: it has that order's id, is not empty and holds only its items; the orders of the groups strictly increase |
| FulfillmentPublisher.Recover | src/fulfillment/shopify-publisher.ts:7 | the loop over the page finds the first fulfilment with the number and exactly the requested lines |
| FulfillmentPublisher.RecoveryExact | src/fulfillment/shopify-publisher.ts:7 | nothing is found, reused or refused exactly when no, a matching or only a different fulfilment on the page carries the number |
| FulfillmentPublisher.RecoveryReach | src/fulfillment/shopify-publisher.ts:2 | the lookup misses the one fulfilment with the number exactly when at least 100 newer ones follow it |
| FulfillmentPublisher.SameMap | src/fulfillment/shopify-publisher.ts:7 | equal sizes and agreement on the requested lines mean the same lines |
| FulfillmentPublisher.PlanPublish | src/fulfillment/shopify-publisher.ts:7 | the publisher reuses, refuses or creates as the plain plan says, and what it creates takes every group's items from the order the group names |
| FulfillmentPublisher.PlanExact | src/fulfillment/shopify-publisher.ts:7 | it is reused or refused for its number exactly if one of the newest hundred fulfilments carries the number; what is created ships exactly the requested quantities, each group out of the order it names; what is reused carries the number and looks right, and ships exactly them exactly when it has at most 100 nodes and no line twice |
| FulfillmentPublisher.RefusedExactly | src/fulfillment/shopify-publisher.ts:7 | otherwise it is refused exactly for a wanted line whose first item has too little left, or else for a requested line that no order has, and created exactly if neither holds |
| FulfillmentPublisher.LastNodeWins | src/fulfillment/shopify-publisher.ts:7 | a map read from nodes has of every line the quantity of its last node |
| FulfillmentPublisher.SameLineExactly | src/fulfillment/shopify-publisher.ts:7 | two line ids are taken for one exactly if they are equal or one is the bare number of the other |
| FulfillmentPublisher.TracksExactly | src/fulfillment/shopify-publisher.ts:2-7 | a fulfilment carries a number exactly if one of its first ten tracking entries is it |
| FulfillmentPublisher.LooksRightExactly | src/fulfillment/shopify-publisher.ts:7 | reading positive nodes into a map, last node wins: a fulfilment that looks like the requested lines ships exactly them exactly when it has at most 100 nodes and no line twice |
| FulfillmentPublisher.TwoNodesPassForOne | src/fulfillment/shopify-publisher.ts:7 | a fulfilment with twice the requested quantity that is reused |
| FulfillmentPublisher.RequestedExactly | src/fulfillment/shopify-publisher.ts:7 | the requested map has every item's quantity exactly when no two ids of the shipment name one line |
| FulfillmentStore.ShopifyFulfillmentJobStore.ClaimOne | src/fulfillment/shopify-job-store.ts:8 | a claimable row becomes RUNNING for this worker; nothing is claimed only when nothing is claimable |
| FulfillmentStore.FencedExactly | src/fulfillment/shopify-job-store.ts:9-15 | every update after the claim is accepted exactly from the owner under a live lease, and touches one row; a success records the fulfilment and its event together, a failure its event |
| FulfillmentStore.ClaimFencesOthers | src/fulfillment/shopify-job-store.ts:8 | from a claim on, nobody else ever holds the job, and nobody can claim it before the lease ends |
| FulfillmentStore.ReleasedIsNobodys | src/fulfillment/shopify-job-store.ts:12-14 | a retried or deferred job is nobody's and can be claimed exactly from its due time on while attempts are left; the deferral gave one back |
| FulfillmentOnce.AtMostOneFulfillment | src/fulfillment/worker.ts:5 | over all runs with crashes and lost responses, a shipment is fulfilled more than once exactly when some lookup, with an earlier fulfilment of the job beyond the newest hundred of its order or without a tracking number to know it by, sent a create request that took effect |
| FulfillmentOnce.OnePageOneFulfillment | src/fulfillment/worker.ts:5 | so a shipment with a tracking number is fulfilled at most once in an order of at most 100 fulfilments |
| FulfillmentOutcome.SucceededNamesRequestedLines | src/fulfillment/shopify-job-store.ts:11 | a SUCCEEDED job names a fulfilment of its order that ships exactly the requested quantities, or a reused one that looks right, which ships exactly them exactly when it has at most 100 nodes and no line twice |
| FulfillmentOutcome.OneOutcomeEvent | src/fulfillment/shopify-job-store.ts:11-15 | in every run a closed job has exactly one event and an open one none; the event says which outcome, and names the fulfilment the job names |
| FulfillmentAttempts.PublishSucceeds | src/fulfillment/worker.ts:5 | from every run a claimable job whose shipment can be published ends, within its lease, SUCCEEDED with a new fulfilment of its order, of exactly the requested quantities and under its tracking number, and with its CREATED event |
| FulfillmentAttempts.RecoverySucceeds | src/fulfillment/worker.ts:5 | if one of the newest hundred fulfilments carries the number and shows the requested lines, the job ends SUCCEEDED with such a one and a RECOVERED event, and nothing is created |
| FulfillmentAttempts.ErrorDecides | src/fulfillment/worker.ts:5 | in every run, whatever the attempt of the worker that holds the job throws: nothing after a lost lease; a missing connection is waited for 30 s and a 429 as long as it says, with the attempt given back; an error without a status, a 408 or one of at least 500 spends the attempt while any is left; everything else fails the job with the error's message |
| FulfillmentAttempts.ReportSucceeds | src/fulfillment/shopify-job-store.ts:11 | a result reported under the lease closes the job with its fulfilment and the event that says how |
| FulfillmentAttempts.OpenIsClaimable | src/fulfillment/shopify-job-store.ts:8 | in every run an open job can be claimed at some time exactly while its attempts stay below the maximum if it is PENDING, and do not exceed it if it is RUNNING |
| FulfillmentRuns.PageLimitMatters | src/fulfillment/shopify-publisher.ts:2 | a run in which two workers time out, a hundred other fulfilments hide the first one, and both requests take effect |
| FulfillmentOutcome.NoLateDeferralNoneStranded | src/fulfillment/worker.ts:5 | unless a claim past the last attempt is deferred, every PENDING job keeps attempts below the limit |
| FulfillmentOutcome.LateDeferralStrands | src/fulfillment/shopify-job-store.ts:13-14 | after such a deferral nobody can ever claim the job again |
| FulfillmentRuns.StrandedRun | src/fulfillment/worker.ts:5 | such a run exists |
| Raster.Flatten | src/brand/mark-renderer.ts:61-81 | the loop yields the curve's points at equal parameter steps, the number of steps from the control polygon |
| Raster.PaintPiece | src/brand/mark-renderer.ts:106-141 | visiting only the clipped bounding box, every pixel of the whole canvas ends as the maximum of its old value and the piece's value |
| Raster.PaintSegment | src/brand/mark-renderer.ts:104-142 | after a segment the canvas covers all its pieces as well |
| Raster.RasterizeCoverage | src/brand/mark-renderer.ts:94-145 | every pixel of the canvas holds the plain definition: the maximum over all flattened pieces, between 0 and 255 |
| Raster.CoverageIsMax | src/brand/mark-renderer.ts:126-139 | the plain definition is a maximum: nothing exceeds it, and it is 0 or reached |
| Raster.OrderDoesNotMatter | src/brand/mark-renderer.ts:103-143 | the picture does not depend on the order of the segments, nor on repetitions |
| Raster.DistanceGaps | src/brand/mark-renderer.ts:127-134 | the distance is at least the gap to the piece along each axis |
| Raster.OutsideBox | src/brand/mark-renderer.ts:113-116 | a pixel outside the clipped box gets nothing from the piece |
| MarkDistance.DistanceIsLeast | src/brand/mark-renderer.ts:127-134 | the distance to a piece is that to its nearest point: no point of it is nearer and one is just as near |
| MarkDistance.CurveIsCasteljau | src/brand/mark-renderer.ts:68-78 | the weighted points of a curve are those of de Casteljau's construction |
| MarkDistance.CountIsSteps | src/brand/mark-renderer.ts:64-66 | a curve is drawn in the least number of pieces from 8 on with at most two pixels of its control polygon for each, a line in one |
| MarkDistance.DrawnMark | src/brand/mark-renderer.ts:103-111 | the points of the painted pieces are exactly the points of the drawn lines |
| MarkDistance.PixelIsShade | src/brand/mark-renderer.ts:94-143 | every pixel of every geometry: opaque up to half a pixel inside the line's edge, clear from half a pixel outside, and in between 255 times the rest, rounded half up, where the distance is that of the pixel's centre from the nearest point of the drawn lines; clear without lines |
| MarkDistance.BesideTheFirstStroke | src/brand/mark-renderer.ts:49 | the pixel beside the first stroke of the mark at width 1000 is opaque |
| MarkSymmetry.MirrorFlattened | src/brand/mark-renderer.ts:61-81 | flattening the mirrored curve gives the mirrored points in the opposite order |
| MarkSymmetry.BackwardsDistance | src/brand/mark-renderer.ts:127-134 | clamped projection commutes with reversing a piece, so the distance does not change |
| MarkSymmetry.MarkIsSymmetric | src/brand/mark-renderer.ts:18-55 | at every positive width pixel x equals pixel width - 1 - x in every row |
| Crc32.BuildTable | src/brand/mark-renderer.ts:147-155 | entry n of the table is n shifted eight times |
| Crc32.TakeByte | src/brand/mark-renderer.ts:159 | one turn of the table loop is eight turns of the bit-serial register |
| Crc32.Compute | src/brand/mark-renderer.ts:157-161 | the table-driven loop computes the bit-serial CRC of every byte string |
| Crc32.TableStep | src/brand/mark-renderer.ts:159 | eight shifts depend on the low byte alone, the rest moves down by a byte |
| CrcDivision.CrcIsDivision | src/brand/mark-renderer.ts:147-161 | for every byte string the CRC is the complemented remainder of section 3.4 of RFC 2083: first 32 bits complemented, 32 zeros appended, divided by the generator |
| CrcDivision.DivisionExact | src/brand/mark-renderer.ts:151 | that division is exact: every polynomial is its quotient times the generator plus its remainder |
| CrcDivision.DivisionUnique | src/brand/mark-renderer.ts:151 | quotient and remainder are unique, so the computed remainder is the remainder |
| CrcDivision.FeedDivides | src/brand/mark-renderer.ts:147-161 | feeding bits into the register is long division of the message with the register added in front |
| CrcDivision.PolynomialBits | src/brand/mark-renderer.ts:151 | the constant is the generator's coefficients, mirrored |
| CrcDetection.UpdateIsBijection | src/brand/mark-renderer.ts:159 | for each byte the update is a bijection on the 32-bit states, with its inverse |
| CrcDetection.BurstChangesCrc | src/brand/mark-renderer.ts:157-161 | replacing up to four consecutive bytes always changes the CRC |
| CrcDetection.OneByteChangesCrc | src/brand/mark-renderer.ts:157-161 | two equal-length messages that differ in one byte never share a CRC |
| Png.WriteUInt32BE | src/brand/mark-renderer.ts:165 | four big-endian bytes at the offset and nothing else; refused above 32 bits |
| Png.BuildChunk | src/brand/mark-renderer.ts:163-171 | length, type, payload and the CRC of type and payload |
| Png.ChunkRoundTrip | src/brand/mark-renderer.ts:163-171 | a reader that checks length and CRC gets the chunk back, whatever follows |
| Png.FillScanlines | src/brand/mark-renderer.ts:175-181 | in place, every row behind a filter byte 0, zero where the pixel array is too short |
| Png.ScanlineBytes | src/brand/mark-renderer.ts:175-181 | byte by byte: a 0 in front of every line, then the row's samples in order |
| Png.UnfilterScanlines | src/brand/mark-renderer.ts:175-181 | removing the filter bytes gives the rows back |
| Png.BuildHeader | src/brand/mark-renderer.ts:183-190 | the thirteen header bytes: size, depth 8, colour type 6, no interlacing |
| Png.EncodeRgbaPng | src/brand/mark-renderer.ts:174-198 | signature, IHDR, IDAT, IEND, or nothing where a number does not fit |
| Png.FileChunks | src/brand/mark-renderer.ts:192-197 | the chunk stream re-parses into IHDR, IDAT, IEND with correct lengths and CRCs and nothing else |
| Png.FileLaidOut | src/brand/mark-renderer.ts:163-198 | the file byte by byte, as sections 3 and 4.1 of RFC 2083 lay it out: signature, header chunk with size, depth, colour type and methods, one data chunk, end chunk; lengths and CRCs most significant byte first |
| Png.PngRoundTrip | src/brand/mark-renderer.ts:174-198 | decoding the file gives the size and the exact RGBA array |
| Png.InspectorReadsSize | src/mockups/file-inspector.ts:34 | the inspector reads the non-zero size from the file, or from any 24 bytes or more of its start |
| Png.InspectorAnswers | src/mockups/file-inspector.ts:34 | the inspector answers exactly for 24 bytes that start like such a file, with the size in them if it is not zero |
| MarkRenderer.RenderMarkPng | src/brand/mark-renderer.ts:207-224 | size from the rounded width and the view box, colour everywhere, coverage as alpha; nothing for a width that is not a positive safe integer |
| MarkRenderer.Colour | src/brand/mark-renderer.ts:215-222 | the loop writes four bytes per pixel |
| MarkRenderer.RenderedPixels | src/brand/mark-renderer.ts:207-224 | decoding a rendered file gives the painted pixels |
| MarkRenderer.RenderedShows | src/brand/mark-renderer.ts:207-224 | decoding a rendered file gives a picture of the rounded width and of the height in the geometry's proportion, in which every pixel has the colour and, as alpha, the shade of its distance from the drawn lines |
| MarkRenderer.RefusedExactly | src/brand/mark-renderer.ts:207-212 | nothing is rendered exactly if the width rounds to no positive safe integer or a number does not fit the file |
| MarkRenderer.RenderedMarkIsSymmetric | src/brand/mark-renderer.ts:207-224 | rendering the mark at any width and decoding the file gives a picture of the stated size in which opposite pixels of a row are equal, all four bytes |
| Jpeg.ReadJpeg | src/mockups/file-inspector.ts:35 | the marker loop ends, never reads outside the data, and computes the scan |
| Jpeg.AnswersTheFirstFrame | src/mockups/file-inspector.ts:35 | there is an answer exactly for SOI, stray bytes, standalone markers and segments with their lengths, then a frame header whose claimed length is there, with 1 to 65535 lines and samples; the answer is samples by lines |
| Jpeg.ReadsT81 | src/mockups/file-inspector.ts:35 | a stream written from its numbers as section B.2.2 of ITU-T T.81 lays it out, with Y lines of X samples, any components and anything before and behind, is answered X by Y |
| Jpeg.AnswerIsStable | src/mockups/file-inspector.ts:35 | an answer on a prefix is the answer on every extension |
| FileInspector.ReadPrefix | src/mockups/file-inspector.ts:33 | the chunked read yields the first bytes of the body, clipped at the limit |
| FileInspector.PrefixIsEnough | src/mockups/file-inspector.ts:27 | what the inspector finds in the first bytes of a JPEG is what the whole file says |
| BrandStore.MemoryBrandProfileStore.Submit | src/brand/memory-store.ts:22-59 | unknown workspace refused, known key answered with the original result, otherwise the next number of the workspace |
| BrandStore.MemoryBrandProfileStore.Edit | src/brand/memory-store.ts:73-104 | only completed revisions are edited; the copy gets the next number of the profile |
| BrandStore.MemoryBrandProfileStore.Complete | src/brand/memory-store.ts:106-127 | only a generating revision completes, with its review event |
| BrandStore.MemoryBrandProfileStore.Fail | src/brand/memory-store.ts:129-136 | only a generating revision fails |
| BrandStore.MemoryBrandProfileStore.Approve | src/brand/memory-store.ts:138-153 | the loop supersedes the profile's approved revisions, then approves this one with its event |
| BrandOperations.SubmittedExactly | src/brand/memory-store.ts:22-59 | in every run: all that a submission stores, remembers and announces, and when it is refused or answered from memory |
| BrandOperations.EditedExactly | src/brand/memory-store.ts:73-104 | in every run an edit adds the base's workspace, profile and answers with the edited result, and is refused exactly without a completed base |
| BrandOperations.CompletedExactly | src/brand/memory-store.ts:106-127 | in every run a result is stored in that revision alone, with what made it, exactly if it is generating |
| BrandOperations.FailedExactly | src/brand/memory-store.ts:129-136 | in every run a failure is stored in that revision alone, with its code and without an event, exactly if it is generating |
| BrandOperations.ApprovedExactly | src/brand/memory-store.ts:138-153 | in every run an approval approves that revision by that actor, supersedes what was approved in its profile and changes nothing else, exactly if it is up for review |
| BrandHistory.RevisionsAreNumbered | src/brand/memory-store.ts:31-37 | in every run a workspace has one profile and its revisions carry exactly the numbers 1 to n, in order |
| BrandHistory.NextNumber | src/brand/memory-store.ts:83-85 | numbering by profile and numbering by workspace agree |
| BrandHistory.OneApprovedRevision | src/brand/memory-store.ts:138-153 | a revision is APPROVED exactly when its profile's last approved event names it, so at most one is |
| BrandHistory.ResubmissionIsIdempotent | src/brand/memory-store.ts:29-30 | the same key, any time later and whatever else it says, changes nothing and returns the original result |
| BrandHistory.ResultsAreNotShared | src/brand/memory-store.ts:29 | a remembered result is returned only to the workspace and correlation id that made it |
| BrandHistory.HistoryIsAppendOnly | src/brand/memory-store.ts:22-153 | revisions are never removed and keep number, profile, workspace, answers and author |
| MigrationSql.MarkersAreRemoved | src/db/migration-runner.ts:8 | BEGIN and COMMIT in any case and with any white space are removed around any body |
| MigrationSql.RunsExactly | src/db/migration-runner.ts:8 | every text: without markers its trimmed text runs, with both its body between them does, and it is refused exactly if one stands alone |
| MigrationSql.ChecksumIgnoresBreaks | src/db/migration-runner.ts:9 | the checksum is the hash of the text as written with LF, whether its breaks are CR LF, lone CRs or LFs, and of any text without CR as it is |
| MigrationSql.EveryTextIsWritten | src/db/migration-runner.ts:9 | every text is lines with such breaks, so this covers all |
| Migrations.Client.ApplyMigration | src/db/migration-runner.ts:19-20 | SQL and row commit together or not at all, and what was sent is the file's text without its markers |
| Migrations.Client.RunMigrationPlan | src/db/migration-runner.ts:11-23 | the loop computes the plan's outcome, sends of each file the text without its markers, and releases the lock on every way out |
| Migrations.ExactlyOnceIffRecorded | src/db/migration-runner.ts:11-23 | over any sequence of successful and failed runs a migration not recorded before the first takes effect exactly once if its row is recorded and never if it is not; what took effect is its file's text without its markers, and the recorded checksum is that file's |
| Migrations.AppliedExactly | src/db/migration-runner.ts:19-20 | a migration that is not recorded fails, and then changes nothing, exactly if its text has one marker alone or what is to run does not succeed; otherwise that text has run once and the row with the checksum is there |
| Migrations.RecordedExactly | src/db/migration-runner.ts:18 | a recorded migration runs nothing: a missing checksum is filled in, an equal one passes, another one is a mismatch |
| Migrations.PrefixThenFull | src/db/migration-runner.ts:11-23 | a prefix run followed by the full plan equals the full plan exactly when no migration of the prefix is reached unrecorded, runs its SQL and has its callback throw |
| Migrations.ThrowingCallbackDiffers | src/db/migration-runner.ts:20 | such a run: the first one fails in the callback, the second succeeds without calling back |
| Migrations.ValidMeans | src/db/migration-verifier.ts:4 | valid means: the recorded versions are the plan's, each with the expected checksum |
| Migrations.SuccessIsValid | src/db/migration-verifier.ts:4 | after a successful run over rows that belong to the plan the verifier says valid |
| Migrations.ValidIsQuiet | src/db/migration-verifier.ts:4 | on a valid state the next run changes nothing, exactly when migrations of one version agree |
| TokenProvider.ShopifyAccessTokenProvider.Resolve | src/integrations/shopify-access-token-provider.ts:11-33 | one caller: the provider is asked exactly when both reads found the token stale and the refresh token can be sent; a returned token is the stored one, fresh at a read or read out of the answer; nothing is returned exactly without a usable connection, and an error leaves what is stored |
| TokenProvider.DecidedExactly | src/integrations/shopify-access-token-provider.ts:16-26 | what a caller does with what it read: a token with more than the margin left is used, otherwise the refresh token is sent if it is there and has not expired, and if not the connection has to be authorised again |
| TokenProvider.ParsedExactly | src/integrations/shopify-oauth.ts:21-28 | an answer is accepted exactly with a token and a scope and either none or all of refresh token and positive lifetimes; each token expires its lifetime in seconds after the answer |
| TokenRefresh.RefreshSucceeds | src/integrations/shopify-access-token-provider.ts:16-33 | undisturbed and with the newest refresh token in store, a caller is handed the next pair's token, and the pair is stored with its lifetimes |
| TokenRefresh.UnsendableIsReauthorised | src/integrations/shopify-access-token-provider.ts:24-28 | without a refresh token that can be sent the connection has to be authorised again and nobody is asked |
| TokenRefresh.OldTokenIsRefused | src/integrations/shopify-access-token-provider.ts:29-30 | with an older refresh token in store the provider refuses it and the connection has to be authorised again |
| TokenRotation.NoTokenSpentTwice | src/integrations/shopify-access-token-provider.ts:11-33 | in every run without a loss every exchange spends what the one before issued, every asking caller sends the provider's current token, and none is turned down |
| TokenRotation.OneCallerInside | src/integrations/connection-repository.ts:49-53 | in every run at most one caller is between its second read and its release |
| TokenRotation.OnlyFreshTokens | src/integrations/shopify-access-token-provider.ts:12-32 | in every run a returned token was fresh when read, or belongs to a pair stored at that moment and issued by an exchange of the run, fresh at that exchange if its lifetime exceeds the margin |
| TokenRotation.ExchangesAreSpaced | src/integrations/shopify-access-token-provider.ts:21-23 | after an issue nobody exchanges before the pair is within the margin of its end |
| TokenRotation.TurnedDownExactly | src/integrations/shopify-access-token-provider.ts:29-30 | a caller is turned down exactly when one asks the provider after a pair was lost |
| TokenRotation.LostForGood | src/integrations/shopify-access-token-provider.ts:30-31 | once a pair is lost, no exchange of the run ever succeeds again, whatever the callers do later |
| TokenRotation.DyingCallLosesConnection | src/integrations/shopify-access-token-provider.ts:29 | such runs, with the death after and before the exchange: the next caller is turned down and the connection needs authorisation |
| LoginLimiter.AdminLoginRateLimiter.Create | src/auth/admin-login-rate-limiter.ts:6-10 | exactly the documented option ranges are accepted |
| LoginLimiter.AdminLoginRateLimiter.Check | src/auth/admin-login-rate-limiter.ts:12-19 | the pruned list answers like the full list of failures since the last success |
| LoginLimiter.AdminLoginRateLimiter.Fail | src/auth/admin-login-rate-limiter.ts:21-24 | a failure is recorded exactly when the key was not refused, and no window ever holds more than the limit |
| LoginLimiter.AdminLoginRateLimiter.Success | src/auth/admin-login-rate-limiter.ts:26-28 | a success forgets the key's failures and no other's |
| LoginLimiter.RecordedWithinLimit | src/auth/admin-login-rate-limiter.ts:21-24 | no time window, wherever it ends, holds more recorded failures than the limit |
| LoginLimiter.RetryIsExact | src/auth/admin-login-rate-limiter.ts:16-19 | waiting retryAfterSeconds is enough and one second less is still refused |
| ProductScoring.TotalBetween | src/domain/product-scoring.ts:26-33 | a total lies between the least and the greatest component, each rounded to cents like the total, so within half a cent of them, and from 0 to 100 |
| ProductScoring.TotalIsMonotone | src/domain/product-scoring.ts:26-33 | raising components never lowers the total |
| ProductScoring.MarginScoreIsMonotone | src/domain/product-scoring.ts:35-41 | a higher margin never scores less |
| ProductScoring.TotalExactly | src/domain/product-scoring.ts:11-33 | the total is 30 parts margin, 25 target fit, 15 shipping, 15 design, 10 variety and 5 return safety of a hundred, to the nearest cent; refused exactly outside 0 to 100 |
| ProductScoring.MarginScoreSteps | src/domain/product-scoring.ts:35-41 | nothing below 3000 basis points, then 35, 65, 85 and 100 from 3000, 4000, 5000 and 6000 on |
| Evaluator.PriceIsLeast | src/candidates/evaluator.ts:48-57 | the chosen price is the least whole number in the range that meets the target margin; unachievable exactly when none does |
| Evaluator.ExcludedExactly | src/candidates/evaluator.ts:36-66 | a product is excluded for a reason exactly when the reason applies: all early ones that do, or the one way in which no price of its range will do |
| Evaluator.EligibleWithoutReasons | src/candidates/evaluator.ts:88-120 | it is eligible exactly when no reason applies |
| Evaluator.EligibleProduct | src/candidates/evaluator.ts:44-66 | an eligible product has the least price meeting its target, at least 3000 basis points and a score from 0 to 100 |
| Evaluator.UnachievableExactly | src/candidates/evaluator.ts:54-56 | TARGET_MARGIN_UNACHIEVABLE exactly when no whole price in the valid range meets the target |
| Evaluator.EligibleExactly | src/candidates/evaluator.ts:44-66 | without early reasons and in a valid range, eligible exactly when the least meeting price has 3000 basis points |
| Evaluator.ScoredBy | src/candidates/evaluator.ts:100-107 | what each component of an eligible product's score is |
| Evaluator.ReasonsInOrder | src/candidates/evaluator.ts:36-66 | the reasons come in one fixed order, none twice |
| Evaluator.BasisPointsExactly | src/candidates/evaluator.ts:58 | the margin is the share of the price left after the cost in basis points, rounded down |
| Evaluator.FirstRange | src/candidates/evaluator.ts:27 | the first price range of the product's type counts |
| DecimalPrice.AcceptsExactly | src/candidates/printful-catalog-provider.ts:95-103 | a price is accepted exactly when its value in minor units is whole and from 1 to the safe limit, and that number is the answer |
| DecimalPrice.TrailingZeros | src/candidates/printful-catalog-provider.ts:98-100 | trailing zeros change nothing |
| DecimalPrice.PrintedRoundTrip | src/candidates/printful-catalog-provider.ts:95-103 | reading the canonical text of an amount gives the amount back |
| OrderPolicy.SumInParts | src/domain/money.ts:26-29 | summing in parts gives what summing at once gives, the amount or the currency error, exactly unless the parts are in different spellings of one code |
| OrderPolicy.MadeSumInParts | src/domain/money.ts:8-29 | sums of amounts made by `money` can always be taken in parts |
| OrderPolicy.MixedCaseClashes | src/domain/money.ts:17-29 | two lower- and upper-case amounts that clash at once and not in parts |
| OrderPolicy.ReasonsExactly | src/domain/order-policy.ts:43-63 | there is a decision exactly for one currency and a positive revenue, and a reason is given, once, exactly when it applies |
| OrderPolicy.ReasonsInOrder | src/domain/order-policy.ts:47-63 | the reasons come in one fixed order |
| OrderPolicy.StatusExactly | src/domain/order-policy.ts:65-71 | what each status means: a repeated submission first, then a missing payment, then a loss of a basis point, a country, a design or a mapping that blocks, then any other reason |
| OrderPolicy.NegativeMarginExactly | src/domain/money.ts:31-36 | with truncating division a negative margin is a loss of at least one basis point |
| OrderPolicy.MarginExactly | src/domain/money.ts:31-36 | the margin is the share of the revenue that is left, in basis points and rounded toward zero; refused exactly for two currencies or no positive revenue |
| OrderPolicy.SpikeExactly | src/domain/order-policy.ts:59-63 | a cost spike is a rise of at least limit + 1 basis points for a limit of at least zero, and more than the limit for a negative one |
| OrderPolicy.RaisingCost | src/domain/order-policy.ts:43-73 | raising the cost never removes a reason, adds only cost reasons, and never lowers the severity |
| OrderPolicy.ReadyExactly | src/domain/order-policy.ts:43-73 | READY exactly when every check passes, stated in exact amounts |

## Left out

- Floating point: reals stand for JavaScript numbers in geometry, weights, rates and jitter, so results at a rounding boundary may differ in the last unit.
- SQL text, connection pools and driver failures: only each statement's guard, effect and transaction boundary are modelled; a COMMIT or ROLLBACK that itself fails is not.
- HMAC, AES-GCM, SHA-256, deflate and JSON schema validation: functions, invertible where a property needs it.
- Which claimable row a database claim picks: any one, since locked rows are skipped.
- Timestamps of revisions and jobs (created, generated, approved, started, finished), audit rows and telemetry.
- Heartbeat timers fire at any time or never in the protocols; their period is not modelled.
- Shipments, line items and tracking numbers of a fulfilment job do not change during a run, and a publish call does not outlive its lease: a create request takes effect only while the claim it was sent under is the job's latest and holds its lease. Claims are numbered for this, because a deferral gives the attempt back.
- The two deferrals of each store are one operation with a reason; the memory queue's `add` is not modelled.
- That every job ends: a worker may always crash, and nothing says that another one comes.
- Statuses that are not whole numbers, and errors whose fields are of other kinds than the workers look for.
- Recovery for shipments without a tracking number: the publisher cannot recognise its own fulfilment then.
- The rotation lock is a mutual exclusion that a dying session releases; reading the connection and its credentials is one step. Reconnecting through OAuth while a refresh is under way is not part of this model.
- TokenProvider.ShopifyAccessTokenProvider.Resolve: is one caller without interference, and counts recorded refresh failures without their text; interference is the subject of `TokenRotation`.
- Text normalisation in the evaluator (trimming, case folding, separators) and the evidence it attaches.
- MARGIN_BELOW_FLOOR looks at the least meeting price only; that no price in the range could pass the floor is not claimed.
- JPEG fill bytes before a marker: the reader takes them for a segment, and so does the model.
- Redirects, content types, size limits and address checks of the design file inspector, and the SVG rendering of the mark.
- Precision of `Number(bigint)` beyond 2^53 in the order policy; the approved cost's currency, which the code does not look at.
- HTTP routing, admin pages, worker entry points, alerts, the outbox publisher, mockup jobs and catalogue paging.
