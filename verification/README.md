# Verification of the load-test metrics protocol

This project models the distributed measurement and assignment protocol of one load-test
run and proves what it keeps over every interleaving of its parties. It models:

- the **collector** of a worker: a bounded queue, one consumer, and snapshot and close
  commands that travel through the same queue (`Collector.dfy`, `Recording.dfy`);
- the **snapshot merge** with its overflow checks (`Snapshots.dfy`, `Counts.dfy`);
- the **open-model schedule**: arrival offsets, the late-start search and the in-flight
  slots (`OpenLoad.dfy`);
- the **load splitter** and the **coordinator** that turn the connected sessions into a
  history of assignment revisions (`SplitLoad.dfy`, `Coordinator.dfy`, `Membership.dfy`);
- the worker's **run controller**, which applies assignments, drains schedulers and cuts
  time into reported intervals, and all its runs (`Assignments.dfy`, `Controller.dfy`,
  `ControllerRuns.dfy`, `Schedulers.dfy`, `SchedulerProgress.dfy`);
- the orchestrator's **aggregator**, which validates a delta completely and then commits
  it whole, its history over any messages, and what becomes of every delivery
  (`Aggregator.dfy`, `AggregatorHistory.dfy`, `Acceptance.dfy`, `Coverage.dfy`);
- the **whole fleet**: coordinator, aggregator and any number of workers with FIFO queues
  between them (`Deltas.dfy`, `FleetNode.dfy`, `Fleet.dfy`, `FleetDelivery.dfy`,
  `FleetTheorems.dfy`), with the workers' collectors and schedulers beside it
  (`FleetSamples.dfy`, `FleetCollectors.dfy`), and concrete runs (`FleetExamples.dfy`,
  `FleetVerdicts.dfy`);
- the **completion loop and the report**, interleaved with everything the aggregator
  receives meanwhile (`Report.dfy`, `Completion.dfy`, `PassCoverage.dfy`,
  `GraceRace.dfy`, `FleetResult.dfy`).

Each class (`Collector`, `OpenRun`, `AssignmentCoordinator`, `RunController`,
`MetricsAggregator`, `SessionRegistry`) updates its fields as the program does, and every
method's contract equates the new state with a specification function of the old one. The
theorems are about those functions and about all sequences of their steps.

## Conventions

Instants are integer nanoseconds since 0001-01-01T00:00:00Z, so that 0 is the zero time;
differences saturate to 64 bits. Counters are unbounded naturals: the merge checks the
64-bit limit, and a recording wraps its byte counter. The other counters of a recording grow
by one a sample and are not wrapped. A histogram is a map from a recorded value to
its count. Error texts become reason values.

## The hypotheses of the fleet theorems

The fleet theorems (`FleetTheorems`, `FleetResult`) hold for every interleaving of joins,
coordinator wakeups, recorded revisions, timer firings, scheduler ends, cancellations and deliveries in which:

- a replacement assignment is applied strictly before the deadline. Without this a worker
  reports the whole run window again (`LateReplacementRepeatsTheRun`,
  `AnotherReplacementRepeatsTheRun`), and the aggregator accepts such a report exactly as the
  first one of a worker in a run of at most a second (`WholeRunAcceptedExactly`). One
  replacement at the deadline is enough to have a delta refused (`LateReplacementIsRefused`);
- the run ID has no surrounding whitespace. The coordinator stamps it trimmed, the
  aggregator compares it as configured, so this is exactly the condition for the run check
  to pass (`RunIdMustBeTrimmed`);
- results come from an HTTP client: a result without an error carries a status in 100..599
  (section 15 of RFC 9110), and so does any status on an errored result. The exact condition
  is `ReportableExactly`;
- an interval holds fewer than 2^64 samples, the run window can be written as a timestamp,
  and everything the fleet has reported fits 64-bit counters;
- the clock is shared and monotone, timers never fire early, the reporting interval is one
  second, starting a scheduler succeeds, workers join and stay, each with one session, and
  sends succeed.

The controller's transitions take the samples of an interval as a parameter and treat stopping
a scheduler and flushing as one step; `Schedulers.dfy` has the finer steps and shows why that
is sound: nothing is offered between the stop and the flush. What a fleet reports is traced
back to those samples in `FleetSamples.dfy`, and to what the collectors accepted in
`FleetCollectors.dfy`.

A reconciliation is two steps. In the first the coordinator reads sessions and clock, checks
the deadline and makes a revision; in the second, however much later, it records the revision
and sends it. Nothing is assumed about the time between them, except by the two results that
rule out later revisions: `DeadlineSettles` and `LegalRunPassesOnItsMeasurements` start from a
state past the deadline in which no revision is still to be recorded, which is the exact
condition (`SettlesExactly`).

`Schedulers.dfy` lets a scheduler return only with no offer in progress. For the open model
this is proved (`ReturnedIsQuiet`). For the closed model it is assumed: its users offer
before they leave the wait group, and the scheduler waits for that group
(`internal/loadgen/closed.go:41-69`), which is not part of this model.

Nothing is assumed about how far deliveries lag, about the order of workers, or about a
controller surviving: a controller may halt on an overdue revision flush or an error at any
time, and what it had emitted is accepted all the same.

## Where the code does less than it might seem to

- Completion is not reached by a worker that applies its very first assignment at or after
  the deadline: it never starts to collect and so never sends a final. `CompletionIsReached`
  names exactly these workers as missing, and `LateFirstAssignmentIsMissing` is a legal run
  with one.
- The final summary reads snapshot, violations and missing workers one after another. When
  the grace period ends first, the last final can arrive between the reads, and the result
  is PASS although its snapshot lacks that delta (`GraceMayMissADelta` constructs this case).
  `PassCoversExactly` says when a passing result is complete: exactly when the run was
  complete at the moment the snapshot was read. The path through the completion check
  always is (`CompleteExitCovers`), and in a legal run its snapshot then holds all that the
  active workers ever emit (`LegalRunPassesOnItsMeasurements`).
- Completion speaks of workers active in the latest revision only. An older delta of a worker
  that has no load there may still be on its way when the run completes:
  `IdleDeltaMayBePending` is a legal run in which it is.
- A revision is checked against the deadline when it is made and not when it is recorded. If
  it is recorded between the completion check and the last read of the summary, its workers
  have finished the revision before it and are named missing: the result fails on acceptable
  measurements, although nothing was applied late (`LateRecordFailsTheRun` is such a run).
- An offer reads the closed flag before it sends. Close must therefore be called only after
  all producers have stopped, as its comment asks; a producer that had passed the check
  would queue its sample behind the close command, where nobody reads it
  (`LateOfferIsLost`). `CloseReportsExactly` says what is lost, `CloseDrainsEverything` that
  nothing is once the producers are done, and `CloseIsSafe` that the controller keeps to it,
  because a scheduler returns with no offer in progress (`ReturnedIsQuiet`).
- The late-start search at a constant rate computes its offsets in 64 bits. It is exact while
  at most 2^33 arrivals are already due, and otherwise never ends: every bound the doubling
  reaches wraps to an offset before the elapsed time (`SearchEndsExactly`, and
  `SearchHangs` for 100,000 arrivals a second and a start 86,000 seconds late).
- The schedule itself is exact up to arrival 9,223,372,036 and no further
  (`ScheduleIsExactExactly`); the next one is due before the run's start and fires at once.
- A recording wraps its byte counter silently; only a merge reports overflow
  (`OverflowIsReportedOnlyByMerge`).

## Model

| member | source | states |
|---|---|---|
| Snapshots.Merge | internal/metrics/snapshot.go:51-90 | succeeds exactly when the exact total of all inputs fits 64-bit counters and the trackable range, and then returns that total |
| Snapshots.AddValues | internal/metrics/snapshot.go:54-74 | stops exactly when one of the counters would overflow; otherwise adds all of them |
| Snapshots.AddCounts | internal/metrics/snapshot.go:75-80 | status counts add key by key, refused exactly when one total exceeds 64 bits |
| Snapshots.AddHistogram | internal/metrics/snapshot.go:82-87 | no observation is dropped exactly when all are trackable, and then buckets add |
| Snapshots.MergeOrderIndependent | internal/metrics/snapshot.go:69-80 | success and result are the same for every permutation of the inputs |
| Snapshots.PrefixFits | internal/metrics/snapshot.go:53-80 | a total that fits never passes through an intermediate total that does not |
| Recording.RecordedIsExact | internal/metrics/collector.go:146-172 | recording samples one by one is their exact sum, with the byte counter wrapped |
| Recording.ExactPermutation | internal/metrics/collector.go:146-172 | the total does not depend on the order of the samples |
| Recording.MergeOfPartsIsWhole | internal/metrics/snapshot.go:49-90 | recording any partition or interleaving separately and merging equals recording all into one snapshot, for every counter, status and bucket |
| Recording.OverflowIsReportedOnlyByMerge | internal/metrics/collector.go:152-154 | three maximal responses wrap one recording's byte counter, while merging three recordings of them fails |
| Recording.OutcomesOfRecording | internal/metrics/collector.go:159-171 | every request is in exactly one outcome class: the outcome counters of a recording add up |
| Recording.CountersOfRecording | internal/metrics/collector.go:146-172 | each counter of a recording by itself: the requests that succeeded, failed, met a transport, client or server error, and the unmet demand are counted exactly, and the bytes added up modulo 2^64 |
| Recording.LatenciesOfRecording | internal/metrics/collector.go:147-151 | a recording observes each request once and always in the trackable range |
| Recording.BucketsOfRecording | internal/metrics/collector.go:147-151 | a bucket of n microseconds, n from 2 up, holds exactly the requests that took from n up to n + 1 microseconds, bucket 1 all below 2 microseconds, and there are no others |
| Recording.TrackableExactly | internal/metrics/snapshot.go:11-12 | from one microsecond up the trackable range is exactly the values that some latency takes: no latency is out of range and no bucket is out of reach |
| Recording.StatusesOfRecording | internal/metrics/collector.go:155-157 | the status map counts each positive status exactly as often as it was seen, and nothing else |
| Collecting.StepKeepsInvariant | internal/metrics/collector.go:51-131 | every access to shared memory by a producer, the consumer or a command sender keeps conservation, barriers and exclusivity of commands; the check of the closed flag, the send and the drop count of an offer are steps of their own, as are taking a command and answering it |
| Collecting.EveryRunKeepsInvariant | internal/metrics/collector.go:51-131 | the invariant holds after every interleaving of these steps, offers that straddle Close included |
| Collecting.SnapshotIsBarrier | internal/metrics/collector.go:66-79 | the reports up to and including a reply cover exactly the samples accepted before its command was queued |
| Collecting.CloseReportsExactly | internal/metrics/collector.go:81-95 | an answered Close has reported exactly what was accepted before its command was queued: every sample exactly if none was sent afterwards, and every drop exactly if none was counted after the answer |
| Collecting.CloseDrainsEverything | internal/metrics/collector.go:81-95 | called with no offer in progress, Close loses nothing, whatever happens next: the reports hold every accepted sample and every drop |
| Collecting.LateOfferIsLost | internal/metrics/collector.go:52-55 | a run in which an offer that had passed the check sends after Close was answered: its sample is accepted and never reported |
| Collecting.Collector.New | internal/metrics/collector.go:39-47 | fails exactly on a buffer size that is not positive |
| Collecting.Collector.Offer | internal/metrics/collector.go:51-56 | queues the result exactly when open and not full, counts a drop when full, and never blocks |
| Collecting.Collector.OfferUnmetDemand | internal/metrics/collector.go:59-64 | the same for a scheduled arrival without a slot |
| Collecting.Collector.SendSample | internal/metrics/collector.go:123-131 | sends without blocking, even to a collector closed since the check; a full queue turns the offer into a drop to be counted |
| Collecting.Collector.RunOnce | internal/metrics/collector.go:99-117 | one turn of the consumer: takes an event, records a sample or answers the command and starts over |
| Collecting.Collector.SnapshotAndReset | internal/metrics/collector.go:66-79 | returns a faithful recording that, with the earlier reports, covers exactly what was accepted before its command was queued, whatever producers do meanwhile; exactly the outstanding samples and drops if they do nothing; empty once closed |
| Collecting.Collector.Close | internal/metrics/collector.go:83-95 | drains everything once; closing again changes nothing and returns the same metrics |
| ArrivalSchedule.FirstArrivalSequence | internal/loadgen/open.go:78-98 | the doubling and halving search ends, returns the first arrival not yet passed, and never looks beyond the first power of two that has not passed |
| ArrivalSchedule.ConstantFirstArrival | internal/loadgen/open.go:142-144 | without a ramp that arrival is the elapsed time multiplied by the rate, rounded up, and no other |
| ArrivalSchedule.LateStart | internal/loadgen/open.go:78-98 | the search at a constant rate in the program's 64-bit arithmetic, for every rate and elapsed time: the exact answer within 33 doublings for up to 2^33 arrivals due, and none however long one waits beyond |
| ArrivalSchedule.SearchEndsExactly | internal/loadgen/open.go:84-87 | in 64-bit arithmetic the doubling loop ends exactly when at most 2^33 arrivals are already due |
| ArrivalSchedule.SearchHangs | internal/loadgen/open.go:84-87 | at 100,000 arrivals a second and 86,000 seconds late no bound ever ends the doubling |
| ArrivalSchedule.ScheduleIsExactExactly | internal/loadgen/open.go:58-59 | in 64-bit arithmetic an arrival is scheduled at its exact offset exactly up to number 9,223,372,036, and earlier than that beyond |
| ArrivalSchedule.NextArrivalFiresAtOnce | internal/loadgen/open.go:58-60 | the first arrival beyond is scheduled no later than the start of the run |
| ArrivalSchedule.OffsetInvertsCurve | internal/loadgen/open.go:139-155 | the ramped offset inverts the cumulative arrival curve one arrival ahead, and its branches agree at the end of the ramp |
| ArrivalSchedule.RampIncreases | internal/loadgen/open.go:146-154 | ramped offsets strictly increase |
| ArrivalSchedule.RampReaches | internal/loadgen/open.go:146-154 | an arrival is still ahead exactly when the curve has not passed its number |
| ArrivalSchedule.RampFirstArrival | internal/loadgen/open.go:78-98 | on a ramp the first arrival ahead is the least one whose successor's number reaches the arrivals due |
| ArrivalSchedule.LateStartOnRamp | internal/loadgen/open.go:78-98 | the whole search on a ramped schedule |
| OpenRequests.EveryOpenRunIsAccounted | internal/loadgen/open.go:56-72 | at every step the occupied slots are exactly the requests that execute, offer or are about to release, never more than the limit; the wait group counts them and those past their slot; every offer in progress has its owner |
| OpenRequests.ArrivalsAreAccounted | internal/loadgen/open.go:56-72 | before close, arrivals equal recorded requests, recorded unmet demand, dropped samples, interrupted requests, requests in flight, unmet demand being offered and queued events together, at every step |
| OpenRequests.ReturnedIsQuiet | internal/loadgen/open.go:72-73 | once the scheduler has returned no request runs or holds a slot and no offer is in progress |
| OpenRequests.OpenRun.ProcessArrival | internal/loadgen/open.go:64-70 | an arrival becomes a request exactly when a slot is free, and unmet demand otherwise |
| OpenRequests.OpenRun.CompleteRequest | internal/loadgen/open.go:128-137 | a finished request offers its result unless the run interrupted it, and holds its slot meanwhile |
| OpenRequests.ResultOfferIsSteps | internal/loadgen/open.go:131-137 | check, send and drop count of one request's offer, taken in a row, are one undisturbed offer |
| OpenRequests.UnmetOfferIsSteps | internal/loadgen/open.go:64-70 | the same for the unmet demand that the schedule loop offers |
| OpenRequests.OpenRun.ReleaseSlot | internal/loadgen/open.go:128-129 | a request gives back its slot before it leaves the wait group |
| OpenRequests.OpenRun.FinishRequest | internal/loadgen/open.go:128-137 | a finished request offers its result, gives back its slot and leaves the wait group, in this order, and holds nothing afterwards |
| LoadSplitting.Divide | internal/orchestrator/assignment.go:72-83 | the shares add up to the total |
| LoadSplitting.SharesAreFair | internal/orchestrator/assignment.go:72-83 | shares conserve the total, differ by at most one, the larger ones first, and are positive when there is enough for all |
| LoadSplitting.SplitIsFair | internal/orchestrator/assignment.go:36-66 | users, rate and in-flight limit are conserved; exactly the active workers have load; active shares differ by at most one |
| LoadSplitting.SplitSucceeds | internal/orchestrator/assignment.go:16-70 | with a valid load and usable IDs the split never fails, and every worker gets its slice by its place in the sorted list |
| LoadSplitting.SplitFailsExactly | internal/orchestrator/assignment.go:16-70 | a split fails exactly when there is no worker, a blank or repeated ID, a share that is not positive, or no model, and its error is one of these that is so |
| LoadSplitting.SplitIsFairDivision | internal/orchestrator/assignment.go:16-70 | every slice, idle or not, has the configured model and ramp and no field of the other model; the columns add up to the configured load, descend with the IDs and differ by at most one where there is load; nobody is idle while another has two of what ran short |
| LoadSplitting.FairDivisionIsUnique | internal/orchestrator/assignment.go:36-66 | only one division of a load over so many workers is fair in this sense: the split's |
| LoadSplitting.SplitIgnoresOrder | internal/orchestrator/assignment.go:20-21 | success and result do not depend on the order of the worker list |
| LoadSplitting.SplitLoad | internal/orchestrator/assignment.go:16-70 | the sorting, checking and filling loops compute the specified split, with its errors |
| LoadSplitting.CheckIds | internal/orchestrator/assignment.go:22-29 | comparing neighbours of a sorted list finds every blank and every duplicate ID |
| SortedStrings.SortIgnoresOrder | internal/orchestrator/assignment.go:21 | sorting has one result for all orders of the same IDs |
| Membership.SessionRegistry.AddSession | internal/orchestrator/server.go:200-208 | registers the session exactly when its worker has none |
| Membership.SessionRegistry.RemoveSession | internal/orchestrator/server.go:210-222 | removes the session only while it is the worker's current one |
| Membership.SessionRegistry.ActiveSessions | internal/orchestrator/coordinator.go:167-178 | lists exactly the connected workers once each, in order |
| Membership.EventKeepsCovered | internal/orchestrator/coordinator.go:75-91 | every event keeps each unseen join covered by a wakeup |
| Membership.JoinsAreNotLost | internal/orchestrator/server.go:150-152 | a session whose join was signalled has been in a snapshot taken since, is gone, or has a wakeup coming |
| Membership.WakeupsAreSignalled | internal/orchestrator/coordinator.go:73-91 | bursts of joins coalesce: every wakeup, and a token waiting to cause one, has a signalled join of its own |
| Membership.SessionLasts | internal/orchestrator/server.go:210-217 | over any stretch of events a session stays connected exactly if none of them is its own cleanup or a failed send to the very session a reconciliation had read |
| Coordination.NewIsConsistent | internal/orchestrator/coordinator.go:42-71 | a coordinator is built exactly for a run ID that is not blank, a positive lead time, duration and number of workers; its run ID is the given one without the whitespace at its ends |
| Coordination.ReconcileIssues | internal/orchestrator/coordinator.go:95-142 | a valid configuration never fails to split; a revision is issued exactly when there are enough workers and the run is not over; every assignment has the run's identity, target, model, ramp and window and meets the worker's contract |
| Coordination.StreamsAreAccepted | internal/orchestrator/coordinator.go:95-165 | each worker's stream has increasing revisions, one window and one target, each assignment is a valid replacement of any earlier one, and the run window is announced once |
| Coordination.EveryRevisionIsFair | internal/orchestrator/coordinator.go:109-123 | whatever wakeups come and go, each revision goes to exactly the sessions of its wakeup, with the configured model and ramp for each, and divides the configured load fairly over them |
| Coordination.AssignmentCoordinator.ReconcileSessions | internal/orchestrator/coordinator.go:95-142 | the method carries out the specified reconciliation |
| RunControl.BoundaryIsNext | internal/worker/run.go:421-428 | the next boundary is the least instant after now and the start that is a whole number of intervals after the start, or the deadline if that comes first: no boundary lies in between |
| RunControl.RunController.ApplyAssignment | internal/worker/run.go:193-246 | validates, drains, closes the old revision, installs the new one: the specified transition, on every error path too, and a plain cancellation when the closing send is cut short |
| RunControl.RunController.Drain | internal/worker/run.go:201-220 | closes the old revision at the drained time, refuses an overdue interval, and halts exactly when it does not succeed |
| RunControl.RunController.Install | internal/worker/run.go:223-246 | the next assignment becomes current with its first boundary; a scheduler that cannot start leaves the old one current |
| RunControl.RunController.OnTimer | internal/worker/run.go:248-273 | the deadline step and the boundary step, or a plain cancellation when their send is cut short |
| RunControl.RunController.OnSchedulerDone | internal/worker/run.go:275-280 | a scheduler's own end, with or without an error |
| RunControl.RunController.SendInterval | internal/worker/run.go:326-356 | the sequence advances exactly when the delta was built and queued; a send cut short by cancellation ends the loop |
| Assignments.AssignmentCheckedExactly | internal/worker/assignment.go:61-126 | the checks pass exactly for a complete assignment, whose load is whole or idle and whose window is not empty, and any error is true of the assignment |
| Assignments.TransitionExactly | internal/worker/run.go:378-406 | comparing with the current assignment alone takes exactly the complete assignments that are newer than all taken before, for the same run, window and target, and repeats exactly the last one |
| Assignments.RefusalSaysWhy | internal/worker/run.go:378-406 | a refused replacement is refused for a reason that is true of it |
| ControllerRuns.ReplacementReportsExactly | internal/worker/run.go:199-220 | a replacement sends the open interval up to now or the deadline as one final delta with its content, exactly if it is not empty, not longer than an interval and can be written; it ends the controller exactly otherwise, unless it is empty |
| ControllerRuns.ReplacementInstallsExactly | internal/worker/run.go:223-246 | then the next assignment is current, collecting from now on and timed for the first boundary if it has load before its deadline; a scheduler that does not start leaves the old one, its interval and its timer in place |
| ControllerRuns.FiringReportsExactly | internal/worker/run.go:248-273 | a firing sends the open interval up to its boundary with its content, as final exactly at the deadline, and sets the timer for the first boundary after it |
| ControllerRuns.SchedulerEndExactly | internal/worker/run.go:275-280 | a scheduler's end sends nothing, ends the controller exactly on an error, and otherwise changes nothing else |
| ControllerRuns.EveryRunIsOrderly | internal/worker/run.go:156-284 | whatever commands, firings, failures and interruptions reach a controller at whatever times: it makes current a chain of complete assignments, each superseding all before it; its deltas are non-empty intervals of those inside their window, numbered in order, never back in revision, without a gap inside a revision |
| ControllerRuns.EveryAnswerIsExact | internal/worker/run.go:193-198 | in any such run an assignment is taken up only if it supersedes all taken before, acknowledged again exactly if it is the last one, refused exactly otherwise, and then nothing changes |
| ControllerRuns.NothingAfterTheEnd | internal/worker/run.go:190-192 | a controller that has ended sends nothing more, whatever reaches it |
| Schedulers.TurnKeepsSound | internal/worker/run.go:189-282 | every turn of controller, schedulers and collector keeps exclusion and separation |
| Schedulers.SchedulersExclude | internal/worker/run.go:430-438 | at most one scheduler is live, and a wait is always on a channel whose value has not been taken, so it ends when the scheduler does |
| Schedulers.ClosingFlushSeparates | internal/worker/run.go:201-219 | the reports up to a closing flush hold exactly the samples ever accepted from the schedulers before it |
| Schedulers.CloseIsSafe | internal/worker/run.go:170-176 | the collector is closed only after every scheduler has ended and with no offer in progress, nothing is queued behind the close command, and in the end everything accepted and every drop has been reported |
| SchedulerProgress.CommandIsAnswered | internal/metrics/collector.go:97-117 | a snapshot or close command the controller has begun can always be brought to its answer, whatever is queued before it, with nothing accepted meanwhile |
| SchedulerProgress.ReplacementGoesThrough | internal/worker/run.go:199-246 | from any loop that selects with no offer in progress a replacement can go through: the old scheduler is joined, one closing flush reports everything accepted so far, and exactly one new scheduler runs |
| SchedulerProgress.LeavingGoesThrough | internal/worker/run.go:168-176 | from there the controller can also leave, with every accepted sample and every drop reported |
| SchedulerProgress.WayOutExactly | internal/worker/run.go:205-219 | exactly an overdue interval, a failed flush, a scheduler's error and the end of the run set the loop on its way out, and it never turns back |
| SchedulerProgress.NothingStartsAfterAnError | internal/worker/run.go:168-176 | on its way out it starts no scheduler and closes no revision, whatever comes |
| Aggregation.MetricsAggregator.constructor | internal/orchestrator/aggregator.go:46-54 | a new aggregator is empty |
| Aggregation.MetricsAggregator.RecordAssignments | internal/orchestrator/aggregator.go:58-79 | the revision's windows are recorded, become the latest ones, and a token is left |
| Aggregation.MetricsAggregator.Accept | internal/orchestrator/aggregator.go:83-168 | a duplicate changes nothing, a refusal adds one violation, anything else is committed whole; the error returned is the first failing check's |
| Aggregation.MetricsAggregator.RequiresContiguousInterval | internal/orchestrator/aggregator.go:172-190 | continuity is demanded exactly unless a recorded revision in between left the worker without load |
| Aggregation.MetricsAggregator.CheckStatusCodes | internal/orchestrator/aggregator.go:253-262 | passes exactly when every code is an HTTP status and their exact total fits, and returns that total |
| Aggregation.MetricsAggregator.ValidateSnapshot | internal/orchestrator/aggregator.go:239-276 | finds the first thing wrong with counters and histogram, without ever overflowing |
| Aggregation.MetricsAggregator.Reject | internal/orchestrator/aggregator.go:347-352 | adds one violation, leaves a token and changes nothing else |
| Aggregation.MetricsAggregator.MissingFinal | internal/orchestrator/aggregator.go:320-335 | lists exactly the active workers without a final, once each, in order |
| Aggregation.MetricsAggregator.IsComplete | internal/orchestrator/aggregator.go:316-318 | complete exactly when none is missing |
| AggregatorHistory.StepKeepsConsistent | internal/orchestrator/aggregator.go:83-168 | any recorded revision and any message keep conservation, history shape and backed finals |
| AggregatorHistory.EveryPlayIsConsistent | internal/orchestrator/aggregator.go:83-168 | the invariant holds after any messages whatever |
| AggregatorHistory.GrantedEntry | internal/orchestrator/aggregator.go:107-136 | what the checks before a commit establish about the new delta |
| AggregatorHistory.AcceptedIsConserved | internal/orchestrator/aggregator.go:141-167 | after any messages the fleet snapshot is the exact sum of the accepted deltas, and each worker's that of its own |
| AggregatorHistory.HistoryIsOrdered | internal/orchestrator/aggregator.go:107-122 | each accepted delta of a worker has its number, counted from one, and an interval of at most a second inside its window; earlier ones end before it starts and before the deadline, have no greater revision, and a smaller one if they were final for it |
| AggregatorHistory.FleetIsSumOfWorkers | internal/orchestrator/aggregator.go:150-151 | the fleet snapshot is the sum of the per-worker snapshots |
| AggregatorHistory.SecondMergeCannotFail | internal/orchestrator/aggregator.go:145-148 | if the fleet merge succeeds the worker's own merge cannot fail |
| AggregatorHistory.ClonesCannotFail | internal/orchestrator/aggregator.go:292-314 | the panics of both snapshot readers are unreachable and the copies are exact |
| AggregatorHistory.RedeliveryChangesNothing | internal/orchestrator/aggregator.go:107-110 | an exact duplicate changes nothing, even after other revisions and workers |
| AggregatorHistory.RefusalLeavesNoTrace | internal/orchestrator/aggregator.go:347-352 | a refused delta changes only violations and the token |
| AggregatorHistory.RefusedIsInvisible | internal/orchestrator/aggregator.go:83-168 | whatever follows, a refused delta leaves everything as if it had not been sent, every later verdict included, but for its one violation |
| AggregatorHistory.NothingAfterDeadline | internal/orchestrator/aggregator.go:216-231 | after an interval that ends at the deadline nothing new is accepted from that worker |
| Acceptance.AcceptedExactly | internal/orchestrator/aggregator.go:83-168 | after any messages, a delta is accepted exactly if it is the worker's next by number, goes on from its last interval, lies in place in the recorded window, its counters add up, and the total still fits: stated on the accepted history alone |
| Acceptance.IntervalCheckedExactly | internal/orchestrator/aggregator.go:192-237 | the interval checks pass exactly for an interval in place that goes on from the last |
| Acceptance.CountersCheckedExactly | internal/orchestrator/aggregator.go:239-276 | the counter checks pass exactly when outcomes, failures, statuses and observations add up |
| Acceptance.EveryDeliveryIsAnswered | internal/orchestrator/aggregator.go:83-168 | every delivery is accepted into the history, or adds a violation, or is exactly the worker's last accepted delta again and changes nothing |
| Acceptance.RefusalIsTrue | internal/orchestrator/aggregator.go:83-148 | every violation names its worker and a reason that is true of its delta and what was accepted before |
| Acceptance.ConflictIsRefused | internal/orchestrator/aggregator.go:107-112 | other content under the last accepted number is a violation |
| Acceptance.NothingIsLost | internal/orchestrator/aggregator.go:83-168 | without a violation, whatever was delivered is in the history or repeats its worker's last entry |
| Coverage.EveryPlayIsCertified | internal/orchestrator/aggregator.go:124-133 | neighbouring accepted intervals touch unless a recorded revision in between left the worker idle |
| Coverage.FinishIsLast | internal/orchestrator/aggregator.go:159-163 | a finished worker's last accepted interval ends at the deadline and is its final |
| Coverage.GaplessCoverage | internal/orchestrator/aggregator.go:172-237 | a finished worker that was always under load since its first delta has intervals that tile first start to deadline, so that their lengths add up to it |
| Deltas.ReportableExactly | internal/orchestrator/aggregator.go:239-276 | a recorded interval passes the counter checks exactly when its statuses are HTTP statuses and cover all requests without a transport error |
| Deltas.ClientResultsReportable | internal/worker/metrics.go:42-75 | every interval of an HTTP client passes them |
| Deltas.StatuslessSuccessIsRefused | internal/orchestrator/aggregator.go:263-266 | a success without a status would be refused |
| FleetNode.FlushEmits | internal/worker/run.go:326-356 | a flush from a sound controller emits one sound delta that continues the previous one |
| FleetNode.ApplyKeepsNode | internal/worker/run.go:193-246 | applying the next assignment, before the deadline, keeps a worker sound |
| FleetNode.FireKeepsNode | internal/worker/run.go:248-273 | any firing of its timer keeps a worker sound, at a boundary and at the deadline |
| FleetRuns.JoinKeeps | internal/orchestrator/server.go:136-152 | a join keeps the fleet's invariant |
| FleetDelivery.WakeKeeps | internal/orchestrator/coordinator.go:95-123 | a wakeup of the coordinator, which reads sessions and clock and makes a revision, keeps the fleet's invariant: the revision follows the recorded ones, is acceptable to its workers, and is for exactly those joined |
| FleetDelivery.PublishKeeps | internal/orchestrator/coordinator.go:124-141 | recording that revision and sending it, however late and whoever has joined meanwhile, keeps the fleet's invariant |
| FleetDelivery.IntervalPasses | internal/orchestrator/aggregator.go:192-237 | an emitted delta's interval passes every interval check, whatever was recorded since |
| FleetDelivery.DeliveryFits | internal/orchestrator/aggregator.go:141-148 | while everything emitted fits, accepted plus any one pending delta fits |
| FleetDelivery.NextIsGranted | internal/orchestrator/aggregator.go:83-168 | the next delta in a worker's queue is accepted |
| FleetTheorems.StepKeeps | internal/worker/run.go:189-282 | every move of the fleet within the hypotheses keeps its invariant |
| FleetTheorems.EveryEmittedDeltaIsAccepted | internal/worker/run.go:189-282 | in every reachable state nothing was refused, accepted deltas are the delivered prefix of what each worker emitted, and every queue's next delta will be accepted, late revisions included |
| FleetTheorems.EveryReportEndsAtItsBoundary | internal/worker/run.go:263-272 | in every reachable state each report any worker has sent is at most a second long and has no reporting boundary inside, unless it closes a superseded revision before the deadline; one that is not final ends on a boundary |
| FleetTheorems.WorkerCompletes | internal/orchestrator/aggregator.go:156-163 | past its deadline step and with its queue delivered, a worker is missing exactly if it never started to collect |
| FleetTheorems.LegalRunsStart | internal/worker/run.go:223-246 | in a legal run a worker lacks a collector while under load exactly if it applied its first assignment, on which it still is, at or after the deadline |
| FleetTheorems.CompletionIsReached | internal/orchestrator/aggregator.go:320-335 | then the missing workers are exactly those that applied their very first assignment, the one of the latest revision, at or after the deadline |
| FleetTheorems.ClosingIsUnique | internal/worker/run.go:253-262 | interval ends strictly increase, so at most one delta ends at the deadline |
| FleetTheorems.FinishedHasDelivered | internal/orchestrator/aggregator.go:159-163 | everything a finished worker has emitted is delivered |
| FleetTheorems.FinishedWorkersCoverTheRun | internal/worker/run.go:248-273 | in a legal run a finished, always active worker has reported every instant up to the deadline exactly once |
| FleetTheorems.RunIdMustBeTrimmed | internal/orchestrator/server.go:97 | the run check passes exactly when the configured run ID has no surrounding whitespace |
| FleetTheorems.LateReplacementRepeatsTheRun | internal/worker/run.go:240-242 | a replacement applied at or after the deadline makes the worker report the whole window as a final |
| FleetTheorems.AnotherReplacementRepeatsTheRun | internal/worker/run.go:205-219 | a further late replacement repeats the run through its closing flush, or stops the controller when the run is longer than an interval |
| FleetTheorems.WholeRunAcceptedExactly | internal/orchestrator/aggregator.go:213-235 | such a report is accepted exactly as a worker's first in a run of at most a second |
| FleetExamples.LateFirstAssignmentIsMissing | internal/worker/run.go:224-243 | a legal run whose only worker applies its first assignment at the deadline and stays missing |
| FleetExamples.IdleDeltaMayBePending | internal/orchestrator/aggregator.go:324-327 | a legal run that is complete while a delta of a worker without load is still on its way |
| FleetExamples.LateReplacementIsRefused | internal/worker/run.go:240-242 | from a state a legal run reaches, one replacement at the deadline makes the worker report the run twice, and the second report is refused |
| FleetSamples.FleetSnapshotIsRecording | internal/orchestrator/aggregator.go:141-151 | in every reachable state the fleet's snapshot is the recording of exactly the samples collected in the intervals delivered so far, as if one worker had recorded them all, with exactly their drops |
| FleetCollectors.FleetSnapshotIsAccepted | internal/worker/run.go:334 | with collectors and schedulers beside every worker, in every interleaving the fleet's snapshot is the recording of exactly the samples the collectors had accepted when the delivered replies were asked for, with exactly the drops of those replies |
| FleetVerdicts.SimpleRunPasses | internal/orchestrator/completion.go:45-59 | a legal run of one worker and one request, with the loop that watches it, ends in PASS with that request |
| FleetVerdicts.LateRecordFailsTheRun | internal/orchestrator/coordinator.go:100-125 | a legal run whose workers have all finished, delivered and applied nothing late fails on acceptable measurements, because a revision made before the deadline is recorded between the reads of the result |
| Reporting.Evaluate | internal/report/report.go:38-69 | the figures are the snapshot's: requests a second, failures a request and the three percentiles; lists exactly the true failures, in order, and passes exactly when thresholds are met, something was measured and nothing was lost |
| Reporting.EvaluationIsExact | internal/report/report.go:38-69 | the same of the specified evaluation, with the rate compared without division |
| Reporting.FinalSummary | internal/orchestrator/completion.go:62-80 | passes exactly when the evaluation does, nothing was refused and nothing is missing; its list is the evaluation's lines, then every refusal, then the missing workers |
| Reporting.ConclusionPasses | internal/orchestrator/completion.go:71-78 | the same of the specified conclusion, and an empty list is a pass |
| Reporting.ConclusionTellsAll | internal/orchestrator/completion.go:62-80 | its figures are the snapshot's, and no true line, refusal or missing worker is left out of its list |
| Completion.StepsSignal | internal/orchestrator/aggregator.go:354-359 | every aggregator step that changes anything leaves a token, and the token never influences a step |
| Completion.CompletionIsNoticed | internal/orchestrator/completion.go:45-58 | whenever the loop is blocked although the run is complete, a token waits that leads it to the summary |
| Completion.ViolationsAreRefusals | internal/orchestrator/aggregator.go:347-352 | violations are empty exactly when no delivery was refused |
| Completion.SummaryPassesExactly | internal/orchestrator/completion.go:62-80 | what a reported result says about the three moments at which it was read: PASS exactly on acceptable measurements without refusals or missing workers, figures of the snapshot, and a list that leaves nothing out |
| Completion.InterruptedIsPartial | internal/orchestrator/completion.go:26-57 | a cancelled wait answers INTERRUPTED without a violation, with the figures of the sum of what was accepted at the moment of the cancel, over as much of the window as had passed |
| Completion.ResultsAreEarned | internal/orchestrator/completion.go:25-59 | nothing is evaluated before the window was announced and its deadline reached, nor without completion before the grace period has ended |
| Completion.PassIsSound | internal/orchestrator/completion.go:13-80 | over every way the wait can end, PASS implies that it was reported after the deadline, no refused delta, every delivery accepted or an exact redelivery, a deadline final for every active worker, and a snapshot that is the sum of all accepted deltas at its read, with requests, no drops and no unmet demand |
| PassCoverage.FinishedStaysPut | internal/orchestrator/aggregator.go:216-235 | deliveries leave the accepted deltas of a finished worker alone |
| PassCoverage.PassCoversExactly | internal/orchestrator/completion.go:62-80 | a passing snapshot has everything its active workers have had accepted at any later moment, while only deliveries follow, exactly if the run was complete when it was read |
| PassCoverage.CompleteExitCovers | internal/orchestrator/completion.go:45-59 | a result reported because the run was complete has everything its active workers have had accepted at any later moment, however far apart its reads are |
| GraceRace.GraceMayMissADelta | internal/orchestrator/completion.go:48-49 | a run in which the grace period ends, the last final arrives between the reads, and PASS lacks it |
| GraceRace.TwoSecondsIsIssued | internal/orchestrator/coordinator.go:145-165 | the assignment of that run is the one the coordinator issues |
| FleetResult.DeadlineSettles | internal/orchestrator/coordinator.go:105-107 | past the deadline, with no revision still to be recorded, only deliveries follow |
| FleetResult.SettlesExactly | internal/orchestrator/coordinator.go:100-125 | past the deadline only deliveries follow in every run exactly if no revision made before it is still to be recorded |
| FleetResult.LegalRunPassesOnItsMeasurements | internal/orchestrator/completion.go:13-60 | a legal run that completes after the deadline, with no revision still to be recorded, passes exactly when its measurements are acceptable, and its snapshot is a sum of accepted deltas among which are all that its active workers ever emit |

## Left out

- gRPC streams, dialling, reconnecting and backoff: the outbound queue is a FIFO with one sender.
- HTTP execution, the target application, command lines, signals and text rendering: input and output.
- HDR bucket layout, its compression and base64: encoding and decoding are taken to be a round trip on bucket counts, merging adds buckets, a percentile is any function of the buckets, and bucket counts stay below 2^63.
- Floating point: error rate, throughput and ramped offsets are exact reals, and the square root is exact; nothing is claimed about rounding.
- YAML parsing: only the conditions of configuration validation are used, as the hypothesis of the coordinator.
- The assignment state beside the run controller (`internal/worker/assignment.go:25-48`): the controller's own transition check is what runs.
- Departure, reassignment, reconnection and autoscaling: the fleet only grows in the fleet theorems; the session registry by itself models disconnects.
- The closed-model ramp, heartbeat fields, status reporting and option defaults: they would only add easy members.
- Maps are iterated in any order, so which of several counter errors a merge names, and which invalid status code is named, is not modelled; whether there is an error is.
- Wrap-around of the revision counter and of the run controller's sequence before 2^64 steps do not occur in the fleet theorems; the aggregator and the controller themselves wrap the sequence.
- Aliasing of protobuf messages and of snapshots handed out: values are copied here, as the program does with clones.
- The errors for an unconfigured server and a grace period that is not positive: easy members.
- Completion.PassIsSound: is about aggregators whose latest revision is positive; the coordinator counts from one.
- Coverage.GaplessCoverage: speaks of workers under load since their first delta; a worker that was idle in between may have a gap, which is what the continuity rule allows.
- FleetTheorems.LateReplacementRepeatsTheRun: states what is sent when the delta can be built, not how its samples were produced.
- ControllerRuns.ReplacementReportsExactly: leaves out a reporting interval of 2^63 - 1 nanoseconds, the one at which a saturated difference can hide an overdue interval.
- ControllerRuns.EveryRunIsOrderly: leaves out that interval too.
- ControllerRuns.EveryAnswerIsExact: leaves out that interval too.
