/** When the aggregator accepts a delta, stated on the history alone, and what becomes of
    every delivery. */
module Acceptance {
  import opened Wire
  import opened CountMaps
  import opened Snapshots
  import opened Aggregation
  import opened AggregatorHistory

  // ----- What a good delta is ---------------------------------------------------------------

  /** Requests split into outcomes and failures into their classes, every request without a
      transport error has one HTTP status, and each request was observed once. */
  ghost predicate CountersAddUp(d: MetricsDelta) {
    && d.counters.Some? && d.encoding.HdrV2Compressed? && d.histogram.Encoded?
    && var c := d.counters.value;
      && c.requests == c.succeeded + c.failed
      && c.failed == c.transportErrors + c.clientErrors + c.serverErrors
      && (forall code :: code in c.statusCodes ==> 100 <= code <= 599)
      && Total(c.statusCodes) <= 0xFFFF_FFFF_FFFF_FFFF
      && c.requests - c.transportErrors <= Total(c.statusCodes) <= c.requests
      && Total(d.histogram.buckets) == c.requests
  }

  /** The counter checks pass exactly when the counters add up. */
  lemma CountersCheckedExactly(d: MetricsDelta)
    ensures SnapshotProblem(d) == None <==> CountersAddUp(d)
  {
    hide Total;
  }

  /** A whole number of seconds later, within the range of a duration. */
  predicate WholeSecondsAfter(start: Time, end: Time) {
    end > start && end - start <= MAX_I64 && (end - start) % 1_000_000_000 == 0
  }

  /** The interval is a second at most, inside the window, and ends where a delta of its kind
      may: a final at the deadline or once the revision is replaced, any other one a whole
      number of seconds after the start and before the deadline. */
  ghost predicate IntervalInPlace(d: MetricsDelta, window: Window, replaced: bool) {
    && d.intervalStart.Some? && d.intervalEnd.Some?
    && var start, end := d.intervalStart.value, d.intervalEnd.value;
      && 0 <= start < end <= MAX_TIMESTAMP && end - start <= 1_000_000_000
      && window.startsAt <= start && end <= window.deadline
      && if d.finalForRevision then end == window.deadline || replaced
         else end < window.deadline && WholeSecondsAfter(window.startsAt, end)
  }

  /** The delta goes on from the worker's last one: later in time, not back in revision, not
      in a revision that was closed, and without a gap unless some revision in between left
      the worker idle. */
  ghost predicate GoesOn(assignments: map<nat, map<string, Window>>, worker: string, h: seq<Entry>, d: MetricsDelta) {
    h != [] ==>
      var last := h[|h| - 1];
      && End(last) <= AsTime(d.intervalStart)
      && last.delta.revision <= d.revision
      && !(last.delta.finalForRevision && last.delta.revision == d.revision)
      && (End(last) == AsTime(d.intervalStart) || IdleBetween(assignments, worker, last.delta.revision, d.revision))
  }

  /** Everything the aggregator asks of a delta, in terms of what it was sent before. */
  ghost predicate Welcome(run: Run, worker: string, d: MetricsDelta) {
    var h := History(run.log, worker);
    && d.runId == run.agg.runId && d.workerId == worker && Trim(worker) != ""
    && d.revision > 0 && d.revision in run.agg.assignments && worker in run.agg.assignments[d.revision]
    && d.sequence == (|h| + 1) % 0x1_0000_0000_0000_0000
    && GoesOn(run.agg.assignments, worker, h, d)
    && IntervalInPlace(d, run.agg.assignments[d.revision][worker],
                       worker in run.agg.latest && run.agg.latest[worker].revision > d.revision)
    && CountersAddUp(d)
    && Fits(Add(TotalOf(run.log), Decoded(d)))
  }

  /** The interval checks pass exactly for an interval in place that goes on from the last. */
  lemma IntervalCheckedExactly(d: MetricsDelta, window: Window, last: Time, contiguous: bool, replaced: bool)
    requires last >= 0
    ensures IntervalProblem(d, window, last, contiguous, replaced) == None <==>
      && IntervalInPlace(d, window, replaced)
      && (last != 0 ==> last <= AsTime(d.intervalStart) && (contiguous ==> last == AsTime(d.intervalStart)))
  {
    if d.intervalStart.Some? && d.intervalEnd.Some? {
      SaturationIsOffBoundary(d.intervalEnd.value, window.startsAt);
    }
  }

  lemma SaturationIsOffBoundary(end: Time, start: Time)
    ensures Sub(end, start) > 0 && Sub(end, start) % SECOND == 0 <==> WholeSecondsAfter(start, end)
  {
    assert MAX_I64 % SECOND != 0;
  }

  // ----- What becomes of a delivery ---------------------------------------------------------

  /** The checks on the worker's number and revision, in terms of its history. */
  lemma NumberCheckedExactly(run: Run, worker: string, d: MetricsDelta)
    requires Consistent(run)
    ensures var h, state := History(run.log, worker), StateOf(run.agg, worker);
      && (d.sequence == (state.lastSequence + 1) % TWO_64 <==> d.sequence == (|h| + 1) % 0x1_0000_0000_0000_0000)
      && (d.revision >= state.lastRevision && d.revision != state.closedRevision <==>
            d.revision > 0
            && (h != [] ==>
                  var last := h[|h| - 1];
                  last.delta.revision <= d.revision && !(last.delta.finalForRevision && last.delta.revision == d.revision)))
  {
    assert WorkerConsistent(run, worker);
    hide Consistent, WorkerConsistent, History, StateOf;
    StateFollows(run, worker);
    NextNumber(|History(run.log, worker)|);
  }

  /** The interval checks, in terms of the worker's history. */
  lemma TimeCheckedExactly(run: Run, worker: string, d: MetricsDelta, window: Window, replaced: bool)
    requires Consistent(run)
    ensures var h, state := History(run.log, worker), StateOf(run.agg, worker);
      IntervalProblem(d, window, state.lastInterval,
                      RequiresContiguous(run.agg.assignments, worker, state.lastRevision, d.revision), replaced) == None
      <==> IntervalInPlace(d, window, replaced)
           && (h != [] ==>
                 var last := h[|h| - 1];
                 && End(last) <= AsTime(d.intervalStart)
                 && (End(last) == AsTime(d.intervalStart)
                     || IdleBetween(run.agg.assignments, worker, last.delta.revision, d.revision)))
  {
    assert WorkerConsistent(run, worker);
    hide Consistent, WorkerConsistent, History, StateOf, IntervalProblem, IntervalInPlace, IdleBetween;
    StateFollows(run, worker);
    var state := StateOf(run.agg, worker);
    IntervalCheckedExactly(d, window, state.lastInterval,
                           RequiresContiguous(run.agg.assignments, worker, state.lastRevision, d.revision), replaced);
  }

  lemma RoomCheckedExactly(run: Run, d: MetricsDelta)
    requires Consistent(run)
    ensures Merged([run.agg.snapshot, Decoded(d)]).Some? <==> Fits(Add(TotalOf(run.log), Decoded(d)))
  {
    hide Consistent, Add, Fits, Decoded, TotalOf, Sum;
    FleetIsTotal(run);
    SumSmall(run.agg.snapshot, Decoded(d));
  }

  lemma GrantedExactly(run: Run, worker: string, d: MetricsDelta)
    requires Consistent(run)
    ensures Judge(run.agg, worker, Some(d)).Granted? <==> Welcome(run, worker, d)
  {
    hide Consistent, SnapshotProblem, IntervalProblem, Merged, Decoded, RequiresContiguous, IdleBetween, Trim, History,
      IntervalInPlace, CountersAddUp, TotalOf, Fits, Add, StateOf;
    SecondMergeCannotFail(run, worker, Some(d));
    CountersCheckedExactly(d);
    NumberCheckedExactly(run, worker, d);
    RoomCheckedExactly(run, d);
    if d.revision in run.agg.assignments && worker in run.agg.assignments[d.revision] {
      var window := run.agg.assignments[d.revision][worker];
      TimeCheckedExactly(run, worker, d, window, LatestRevision(run.agg, worker) > d.revision);
    }
  }

  /** In every state a run can be in, a delivery is accepted exactly when it is welcome. */
  lemma AcceptedExactly(run: Run, worker: string, d: MetricsDelta)
    requires Consistent(run)
    ensures |Step(run, Delivery(worker, Some(d))).log| > |run.log| <==> Welcome(run, worker, d)
  {
    hide Judge, Welcome, Consistent, Add, Decoded;
    GrantedExactly(run, worker, d);
  }

  /** The worker's last accepted delta, sent again as it was. */
  ghost predicate Redelivered(run: Run, worker: string, delta: Option<MetricsDelta>) {
    var h := History(run.log, worker);
    h != [] && delta == Some(h[|h| - 1].delta)
  }

  /** No delivery is swallowed: it is accepted, or adds a violation, or it is exactly the
      worker's last accepted delta again, in which case nothing changes. */
  lemma EveryDeliveryIsAnswered(run: Run, worker: string, delta: Option<MetricsDelta>)
    requires Consistent(run)
    ensures var next := Step(run, Delivery(worker, delta));
      || (delta.Some? && |next.log| == |run.log| + 1 && next.log[..|run.log|] == run.log
          && next.log[|run.log|].worker == worker && next.log[|run.log|].delta == delta.value
          && next.agg.violations == run.agg.violations)
      || (next.log == run.log && |next.agg.violations| == |run.agg.violations| + 1)
      || (next == run && Redelivered(run, worker, delta))
  {
    hide Consistent, Judge, Decoded, Add, Redelivered;
    DuplicateIsRedelivery(run, worker, delta);
  }

  lemma DuplicateIsRedelivery(run: Run, worker: string, delta: Option<MetricsDelta>)
    requires Consistent(run)
    ensures Judge(run.agg, worker, delta).Duplicate? ==> Redelivered(run, worker, delta)
    ensures Judge(run.agg, worker, delta).Granted? ==> delta.Some?
  {
    hide Consistent, IntervalProblem, SnapshotProblem, Merged, Decoded, Add, RequiresContiguous, History, Trim, StateOf,
      WorkerConsistent;
    LastIsRemembered(run, worker);
  }

  lemma LastIsRemembered(run: Run, worker: string)
    requires Consistent(run)
    ensures var h, last := History(run.log, worker), StateOf(run.agg, worker).lastDelta;
      last == if h == [] then None else Some(h[|h| - 1].delta)
  {
    assert WorkerConsistent(run, worker);
    hide Consistent, WorkerConsistent, History, StateOf;
    StateFollows(run, worker);
  }

  // ----- Why a delivery is refused ------------------------------------------------------------

  /** What a reason about the interval says of it. */
  ghost predicate IntervalReason(d: MetricsDelta, window: Window, last: Option<Time>, idled: bool, replaced: bool, reason: Reason) {
    var given, start, end := d.intervalStart.Some? && d.intervalEnd.Some?, AsTime(d.intervalStart), AsTime(d.intervalEnd);
    match reason
    case IntervalRequired => !given
    case InvalidStart => given && !(0 <= start <= MAX_TIMESTAMP)
    case InvalidEnd => given && !(0 <= end <= MAX_TIMESTAMP)
    case EmptyInterval => given && end <= start
    case IntervalTooLong => given && end - start > 1_000_000_000
    case OutsideWindow => given && (start < window.startsAt || window.deadline < end)
    case EarlyFinal => given && d.finalForRevision && end != window.deadline && !replaced
    case OffBoundary =>
      given && !d.finalForRevision && (end == window.deadline || !WholeSecondsAfter(window.startsAt, end))
    case Overlap => given && last.Some? && start < AsTime(last)
    case NotContiguous => given && last.Some? && start > AsTime(last) && !idled
    case _ => false
  }

  /** What a reason about the counters says of them. */
  ghost predicate CountersReason(d: MetricsDelta, reason: Reason) {
    var given, c, buckets := d.counters.Some?, Decoded(d).counters, Decoded(d).latencies;
    match reason
    case CountersRequired => !given
    case OutcomesMismatch => given && c.requests != c.succeeded + c.failed
    case FailuresMismatch => given && c.failed != c.transportErrors + c.clientErrors + c.serverErrors
    case InvalidStatusCodes =>
      given && ((exists code :: code in c.statusCodes && !(100 <= code <= 599)) || Total(c.statusCodes) > 0xFFFF_FFFF_FFFF_FFFF)
    case StatusesMissing =>
      given && (Total(c.statusCodes) < c.requests - c.transportErrors || c.requests < Total(c.statusCodes))
    case UnsupportedEncoding => d.encoding.UnspecifiedEncoding?
    case MalformedHistogram => d.histogram.Malformed?
    case ObservationsMismatch => given && d.histogram.Encoded? && Total(buckets) != c.requests
    case _ => false
  }

  /** What a reason about identity and order says of a delta, given what was accepted before. */
  ghost predicate OrderReason(run: Run, worker: string, d: MetricsDelta, reason: Reason) {
    var h := History(run.log, worker);
    match reason
    case WorkerMismatch => Trim(worker) == "" || d.workerId != worker
    case RunMismatch => d.runId != run.agg.runId
    case UnknownRevision => d.revision !in run.agg.assignments
    case NotAssigned => d.revision in run.agg.assignments && worker !in run.agg.assignments[d.revision]
    case SequenceConflict => h != [] && d.sequence == h[|h| - 1].delta.sequence && d != h[|h| - 1].delta
    case SequenceGap => d.sequence != (|h| + 1) % 0x1_0000_0000_0000_0000
    case OlderRevision => h != [] && d.revision < h[|h| - 1].delta.revision
    case RevisionClosed =>
      d.revision == 0 || (h != [] && h[|h| - 1].delta.finalForRevision && h[|h| - 1].delta.revision == d.revision)
    case FleetOverflow => !Fits(Add(TotalOf(run.log), Decoded(d)))
    case _ => false
  }

  function LastEnd(h: seq<Entry>): Option<Time> {
    if h == [] then None else Some(End(h[|h| - 1]))
  }

  /** A reason is true of a delivery. */
  ghost predicate Justified(run: Run, worker: string, delta: Option<MetricsDelta>, reason: Reason) {
    match delta
    case None => reason == DeltaRequired
    case Some(d) =>
      var h := History(run.log, worker);
      || OrderReason(run, worker, d, reason)
      || CountersReason(d, reason)
      || (d.revision in run.agg.assignments && worker in run.agg.assignments[d.revision]
          && IntervalReason(d, run.agg.assignments[d.revision][worker], LastEnd(h),
                            h != [] && IdleBetween(run.agg.assignments, worker, h[|h| - 1].delta.revision, d.revision),
                            worker in run.agg.latest && run.agg.latest[worker].revision > d.revision, reason))
  }

  lemma IntervalProblemIsTrue(d: MetricsDelta, window: Window, last: Time, contiguous: bool, replaced: bool)
    requires last >= 0
    ensures var problem := IntervalProblem(d, window, last, contiguous, replaced);
      problem.Some? ==>
        IntervalReason(d, window, if last == 0 then None else Some(last), !contiguous, replaced, problem.value)
  {
    if d.intervalStart.Some? && d.intervalEnd.Some? {
      SaturationIsOffBoundary(d.intervalEnd.value, window.startsAt);
    }
  }

  lemma SnapshotProblemIsTrue(d: MetricsDelta)
    ensures SnapshotProblem(d).Some? ==> CountersReason(d, SnapshotProblem(d).value)
  {
    hide Total;
  }

  /** The interval checks of a consistent run give a true reason. */
  lemma IntervalRefusalIsTrue(run: Run, worker: string, d: MetricsDelta, window: Window, replaced: bool)
    requires Consistent(run)
    ensures var h, state := History(run.log, worker), StateOf(run.agg, worker);
      var problem := IntervalProblem(d, window, state.lastInterval,
                                     RequiresContiguous(run.agg.assignments, worker, state.lastRevision, d.revision), replaced);
      problem.Some? ==>
        IntervalReason(d, window, LastEnd(h),
                       h != [] && IdleBetween(run.agg.assignments, worker, h[|h| - 1].delta.revision, d.revision),
                       replaced, problem.value)
  {
    assert WorkerConsistent(run, worker);
    hide Consistent, WorkerConsistent, History, StateOf, IntervalProblem, IdleBetween;
    StateFollows(run, worker);
    var state := StateOf(run.agg, worker);
    IntervalProblemIsTrue(d, window, state.lastInterval,
                          RequiresContiguous(run.agg.assignments, worker, state.lastRevision, d.revision), replaced);
  }

  /** The checks on number and revision of a consistent run refuse for a true reason. */
  lemma OrderRefusalIsTrue(run: Run, worker: string, d: MetricsDelta)
    requires Consistent(run)
    ensures var h, state := History(run.log, worker), StateOf(run.agg, worker);
      && (d.sequence == state.lastSequence && state.lastDelta.Some? && d != state.lastDelta.value ==>
            h != [] && d.sequence == h[|h| - 1].delta.sequence && d != h[|h| - 1].delta)
      && (d.sequence != (state.lastSequence + 1) % TWO_64 ==> d.sequence != (|h| + 1) % 0x1_0000_0000_0000_0000)
      && (d.revision < state.lastRevision ==> h != [] && d.revision < h[|h| - 1].delta.revision)
      && (state.lastRevision <= d.revision == state.closedRevision ==>
            d.revision == 0
            || (h != [] && h[|h| - 1].delta.finalForRevision && h[|h| - 1].delta.revision == d.revision))
  {
    NumberCheckedExactly(run, worker, d);
    LastIsNumbered(run, worker);
    assert WorkerConsistent(run, worker);
    hide Consistent, WorkerConsistent, History, StateOf;
    StateFollows(run, worker);
  }

  lemma LastIsNumbered(run: Run, worker: string)
    requires Consistent(run)
    ensures var h := History(run.log, worker);
      h != [] ==> h[|h| - 1].delta.sequence == |h| % TWO_64 == StateOf(run.agg, worker).lastSequence
  {
    assert WorkerConsistent(run, worker);
    StateFollows(run, worker);
    var h := History(run.log, worker);
    assert h != [] ==> EntryValid(h[|h| - 1], |h| - 1);
    hide Consistent, WorkerConsistent, History, StateOf;
  }

  lemma VerdictIsTrue(run: Run, worker: string, delta: Option<MetricsDelta>)
    requires Consistent(run)
    ensures var verdict := Judge(run.agg, worker, delta);
      verdict.Refused? ==> Justified(run, worker, delta, verdict.reason)
  {
    hide Consistent, SnapshotProblem, IntervalProblem, Merged, Decoded, RequiresContiguous, IdleBetween, Trim, History,
      TotalOf, Fits, Add, StateOf, IntervalReason, CountersReason;
    if delta.Some? {
      var d := delta.value;
      OrderRefusalIsTrue(run, worker, d);
      RoomCheckedExactly(run, d);
      SnapshotProblemIsTrue(d);
      SecondMergeCannotFail(run, worker, delta);
      if d.revision in run.agg.assignments && worker in run.agg.assignments[d.revision] {
        IntervalRefusalIsTrue(run, worker, d, run.agg.assignments[d.revision][worker], LatestRevision(run.agg, worker) > d.revision);
      }
    }
  }

  /** Every violation is recorded with the worker's name and a reason that is true of its delta. */
  lemma RefusalIsTrue(run: Run, worker: string, delta: Option<MetricsDelta>)
    requires Consistent(run)
    ensures var before, after := run.agg.violations, Step(run, Delivery(worker, delta)).agg.violations;
      after == before
      || (|after| == |before| + 1 && after[..|before|] == before && after[|before|].worker == worker
          && Justified(run, worker, delta, after[|before|].reason))
  {
    hide Consistent, Judge, Justified, Decoded, Add;
    VerdictIsTrue(run, worker, delta);
  }

  /** A delta that repeats the last number with other content is a violation. */
  lemma ConflictIsRefused(run: Run, worker: string, d: MetricsDelta)
    requires Consistent(run)
    requires var h := History(run.log, worker);
      h != [] && d.sequence == h[|h| - 1].delta.sequence && d != h[|h| - 1].delta
    ensures var next := Step(run, Delivery(worker, Some(d)));
      next.log == run.log && |next.agg.violations| == |run.agg.violations| + 1
  {
    assert WorkerConsistent(run, worker);
    var h := History(run.log, worker);
    assert EntryValid(h[|h| - 1], |h| - 1);
    hide Consistent, WorkerConsistent, History, Step;
    assert d.sequence != (|h| + 1) % TWO_64;
    EveryDeliveryIsAnswered(run, worker, Some(d));
    hide Welcome;
    AcceptedExactly(run, worker, d);
    if Welcome(run, worker, d) {
      NumberOfWelcome(run, worker, d);
    }
  }

  lemma NumberOfWelcome(run: Run, worker: string, d: MetricsDelta)
    requires Welcome(run, worker, d)
    ensures d.sequence == (|History(run.log, worker)| + 1) % TWO_64
  {
    hide History, GoesOn, IntervalInPlace, CountersAddUp, Fits;
  }

  /** What the n-th message brought is in the log, or was there already. */
  ghost predicate Kept(runId: string, messages: seq<Message>, n: nat)
    requires n < |messages|
  {
    var run, next := Play(runId, messages[..n]), Play(runId, messages[..n + 1]);
    match messages[n]
    case Revision(_, _) => true
    case Delivery(worker, delta) =>
      || (delta.Some? && |next.log| == |run.log| + 1 && next.log[..|run.log|] == run.log
          && next.log[|run.log|].worker == worker && next.log[|run.log|].delta == delta.value)
      || (next == run && Redelivered(run, worker, delta))
  }

  /** Without a violation nothing that was ever delivered is lost. */
  lemma {:induction false} NothingIsLost(runId: string, messages: seq<Message>)
    requires Play(runId, messages).agg.violations == []
    ensures forall n: nat :: n < |messages| ==> Kept(runId, messages, n)
    decreases |messages|
  {
    hide Step, Kept;
    if messages == [] {
    } else {
      var k := |messages| - 1;
      var init, last := messages[..k], messages[k];
      ViolationsOnlyGrow(Play(runId, init), last);
      NothingIsLost(runId, init);
      forall n: nat | n < k ensures Kept(runId, messages, n) {
        assert Kept(runId, init, n);
        KeptInPrefix(runId, messages, k, n);
      }
      LastIsKept(runId, messages);
    }
  }

  lemma ViolationsOnlyGrow(run: Run, m: Message)
    ensures Step(run, m).agg.violations == [] ==> run.agg.violations == []
  {
    hide Judge, Add, Decoded;
  }

  lemma KeptInPrefix(runId: string, messages: seq<Message>, k: nat, n: nat)
    requires n < k <= |messages|
    ensures Kept(runId, messages[..k], n) <==> Kept(runId, messages, n)
  {
    assert messages[..k][..n] == messages[..n] && messages[..k][..n + 1] == messages[..n + 1];
    hide Play, Redelivered;
  }

  lemma LastIsKept(runId: string, messages: seq<Message>)
    requires messages != [] && Play(runId, messages).agg.violations == []
    ensures Kept(runId, messages, |messages| - 1)
  {
    var k := |messages| - 1;
    assert messages[..k + 1] == messages;
    ViolationsOnlyGrow(Play(runId, messages[..k]), messages[k]);
    EveryPlayIsConsistent(runId, messages[..k]);
    hide Consistent, Step, Redelivered;
    if messages[k].Delivery? {
      EveryDeliveryIsAnswered(Play(runId, messages[..k]), messages[k].worker, messages[k].delta);
    }
  }
}
