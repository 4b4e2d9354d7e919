/** The metrics aggregator of one run: it validates each delta and then commits it whole. */
module Aggregation {
  import opened Wire
  import opened CountMaps
  import opened Snapshots
  import opened SortedStrings

  /** What the aggregator keeps of one worker's assignment in one revision. */
  datatype Window = Window(revision: nat, startsAt: Time, deadline: Time, active: bool)

  datatype WorkerState = WorkerState(
    lastSequence: nat,
    lastDelta: Option<MetricsDelta>,
    lastInterval: Time,
    lastRevision: nat,
    closedRevision: nat,
    finalRevision: nat,
    snapshot: Snapshot)

  const NEW_WORKER := WorkerState(0, None, 0, 0, 0, 0, EMPTY)

  datatype Reason =
    | DeltaRequired
    | WorkerMismatch
    | RunMismatch
    | UnknownRevision
    | NotAssigned
    | SequenceConflict
    | SequenceGap
    | OlderRevision
    | RevisionClosed
    | IntervalRequired
    | InvalidStart
    | InvalidEnd
    | EmptyInterval
    | IntervalTooLong
    | OutsideWindow
    | EarlyFinal
    | OffBoundary
    | Overlap
    | NotContiguous
    | CountersRequired
    | OutcomesMismatch
    | FailuresMismatch
    | InvalidStatusCodes
    | StatusesMissing
    | UnsupportedEncoding
    | MalformedHistogram
    | ObservationsMismatch
    | FleetOverflow
    | WorkerOverflow

  datatype Violation = Violation(worker: string, reason: Reason)

  /** The whole state of an aggregator; `changed` is its one-slot wakeup channel. */
  datatype Aggregate = Aggregate(
    runId: string,
    assignments: map<nat, map<string, Window>>,
    latest: map<string, Window>,
    workers: map<string, WorkerState>,
    snapshot: Snapshot,
    violations: seq<Violation>,
    changed: bool)

  function NewAggregate(runId: string): Aggregate {
    Aggregate(runId, map[], map[], map[], EMPTY, [], false)
  }

  // ----- Recording revisions ------------------------------------------------------------

  function WindowOf(revision: nat, a: LoadAssignment): Window {
    Window(revision, AsTime(a.startsAt), AsTime(a.deadline), IsActive(a.load))
  }

  function WindowsOf(revision: nat, assignments: map<string, LoadAssignment>): map<string, Window> {
    map w | w in assignments :: WindowOf(revision, assignments[w])
  }

  /** Registers a complete revision and makes its workers the ones expected to finish. */
  function WithRevision(a: Aggregate, revision: nat, assignments: map<string, LoadAssignment>): Aggregate {
    var windows := WindowsOf(revision, assignments);
    a.(assignments := a.assignments[revision := windows], latest := windows, changed := true)
  }

  // ----- Judging a delta ------------------------------------------------------------------

  function StateOf(a: Aggregate, worker: string): WorkerState {
    if worker in a.workers then a.workers[worker] else NEW_WORKER
  }

  function LatestRevision(a: Aggregate, worker: string): nat {
    if worker in a.latest then a.latest[worker].revision else 0
  }

  /** The worker had load in this recorded revision. */
  predicate ActiveIn(assignments: map<nat, map<string, Window>>, worker: string, revision: nat) {
    revision in assignments && worker in assignments[revision] && assignments[revision][worker].active
  }

  /** Some recorded revision in the range left the worker without load. */
  ghost predicate IdleBetween(assignments: map<nat, map<string, Window>>, worker: string, previous: nat, current: nat) {
    exists r: nat :: previous <= r <= current && r in assignments && !ActiveIn(assignments, worker, r)
  }

  /** Continuity is demanded unless history shows a revision without load. */
  ghost predicate RequiresContiguous(assignments: map<nat, map<string, Window>>, worker: string, previous: nat, current: nat) {
    previous != 0 && !IdleBetween(assignments, worker, previous, current)
  }

  /** The first thing wrong with a delta's interval. */
  function IntervalProblem(
    d: MetricsDelta, window: Window, lastInterval: Time, contiguous: bool, partialAllowed: bool): Option<Reason>
  {
    if d.intervalStart.None? || d.intervalEnd.None? then Some(IntervalRequired)
    else
      var start, end := d.intervalStart.value, d.intervalEnd.value;
      var atDeadline := end == window.deadline;
      var onBoundary := Sub(end, window.startsAt) > 0 && Sub(end, window.startsAt) % SECOND == 0;
      if !ValidTimestamp(start) then Some(InvalidStart)
      else if !ValidTimestamp(end) then Some(InvalidEnd)
      else if end <= start then Some(EmptyInterval)
      else if Sub(end, start) > SECOND then Some(IntervalTooLong)
      else if start < window.startsAt || end > window.deadline then Some(OutsideWindow)
      else if d.finalForRevision && !atDeadline && !partialAllowed then Some(EarlyFinal)
      else if !d.finalForRevision && (atDeadline || !onBoundary) then Some(OffBoundary)
      else if lastInterval != 0 && start < lastInterval then Some(Overlap)
      else if lastInterval != 0 && contiguous && start != lastInterval then Some(NotContiguous)
      else None
  }

  /** The first thing wrong with a delta's counters and histogram. */
  ghost function SnapshotProblem(d: MetricsDelta): Option<Reason> {
    if d.counters.None? then Some(CountersRequired)
    else
      var c := d.counters.value;
      if c.succeeded > c.requests || c.failed != c.requests - c.succeeded then Some(OutcomesMismatch)
      else if c.transportErrors > c.failed || c.clientErrors > c.failed - c.transportErrors
        || c.serverErrors != c.failed - c.transportErrors - c.clientErrors then Some(FailuresMismatch)
      else if !StatusCodesValid(c.statusCodes) then Some(InvalidStatusCodes)
      else if !(c.requests - c.transportErrors <= Total(c.statusCodes) <= c.requests) then Some(StatusesMissing)
      else if !d.encoding.HdrV2Compressed? then Some(UnsupportedEncoding)
      else if d.histogram.Malformed? then Some(MalformedHistogram)
      else if Total(d.histogram.buckets) != c.requests then Some(ObservationsMismatch)
      else None
  }

  ghost predicate StatusCodesValid(codes: Counts) {
    (forall code :: code in codes ==> 100 <= code <= 599) && Total(codes) <= MAX_U64
  }

  /** The snapshot a delta carries. */
  function Decoded(d: MetricsDelta): Snapshot {
    Snapshot(if d.counters.Some? then d.counters.value else NO_COUNTERS,
             if d.histogram.Encoded? then d.histogram.buckets else map[])
  }

  datatype Verdict = Duplicate | Refused(reason: Reason) | Granted

  /** The outcome for a delta whose worker holds a window in its revision. */
  ghost function JudgeAssigned(a: Aggregate, worker: string, d: MetricsDelta, window: Window): Verdict {
    var state := StateOf(a, worker);
    if d.sequence == state.lastSequence && state.lastDelta.Some? then
      if d == state.lastDelta.value then Duplicate else Refused(SequenceConflict)
    else if d.sequence != (state.lastSequence + 1) % TWO_64 then Refused(SequenceGap)
    else if d.revision < state.lastRevision then Refused(OlderRevision)
    else if d.revision == state.closedRevision then Refused(RevisionClosed)
    else
      var contiguous := RequiresContiguous(a.assignments, worker, state.lastRevision, d.revision);
      var partialAllowed := LatestRevision(a, worker) > d.revision;
      var interval := IntervalProblem(d, window, state.lastInterval, contiguous, partialAllowed);
      if interval.Some? then Refused(interval.value)
      else if SnapshotProblem(d).Some? then Refused(SnapshotProblem(d).value)
      else if Merged([a.snapshot, Decoded(d)]).None? then Refused(FleetOverflow)
      else if Merged([state.snapshot, Decoded(d)]).None? then Refused(WorkerOverflow)
      else Granted
  }

  /** The outcome for any message of a session. */
  ghost function Judge(a: Aggregate, worker: string, delta: Option<MetricsDelta>): Verdict {
    if delta.None? then Refused(DeltaRequired)
    else
      var d := delta.value;
      if Trim(worker) == "" || d.workerId != worker then Refused(WorkerMismatch)
      else if d.runId != a.runId then Refused(RunMismatch)
      else if d.revision !in a.assignments then Refused(UnknownRevision)
      else if worker !in a.assignments[d.revision] then Refused(NotAssigned)
      else JudgeAssigned(a, worker, d, a.assignments[d.revision][worker])
  }

  /** The worker's state once the delta is committed. */
  function Advanced(a: Aggregate, worker: string, d: MetricsDelta): WorkerState {
    var state := StateOf(a, worker);
    var finished :=
      && worker in a.latest && a.latest[worker].revision == d.revision && a.latest[worker].active
      && d.finalForRevision && AsTime(d.intervalEnd) == a.latest[worker].deadline;
    WorkerState(
      d.sequence,
      Some(d),
      AsTime(d.intervalEnd),
      d.revision,
      if d.finalForRevision then d.revision else state.closedRevision,
      if finished then d.revision else state.finalRevision,
      Add(state.snapshot, Decoded(d)))
  }

  function Committed(a: Aggregate, worker: string, d: MetricsDelta): Aggregate {
    a.(snapshot := Add(a.snapshot, Decoded(d)),
       workers := a.workers[worker := Advanced(a, worker, d)],
       changed := true)
  }

  function Rejected(a: Aggregate, worker: string, reason: Reason): Aggregate {
    a.(violations := a.violations + [Violation(worker, reason)], changed := true)
  }

  /** The aggregator after a message: all of the delta, or none of it. */
  ghost function Accepted(a: Aggregate, worker: string, delta: Option<MetricsDelta>): Aggregate {
    match Judge(a, worker, delta)
    case Duplicate => a
    case Refused(reason) => Rejected(a, worker, reason)
    case Granted => Committed(a, worker, delta.value)
  }

  /** The active workers of the latest revision that have not finished it. */
  function MissingFinals(a: Aggregate): set<string> {
    set w | w in a.latest && a.latest[w].active
            && !(w in a.workers && a.workers[w].finalRevision == a.latest[w].revision)
  }

  ghost predicate Complete(a: Aggregate) {
    MissingFinals(a) == {}
  }

  // ----- The aggregator object ---------------------------------------------------------------

  class MetricsAggregator {
    const runId: string
    var assignments: map<nat, map<string, Window>>
    var latest: map<string, Window>
    var workers: map<string, WorkerState>
    var snapshot: Snapshot
    var violations: seq<Violation>
    var changed: bool

    ghost function Contents(): Aggregate
      reads this
    {
      Aggregate(runId, assignments, latest, workers, snapshot, violations, changed)
    }

    constructor (runId: string)
      ensures Contents() == NewAggregate(runId)
    {
      this.runId := runId;
      assignments, latest, workers, snapshot, violations, changed := map[], map[], map[], EMPTY, [], false;
    }

    /** Puts a token in the wakeup channel unless one is there. */
    method Notify()
      modifies this`changed
      ensures changed
    {
      if !changed {
        changed := true;
      }
    }

    method Reject(worker: string, reason: Reason) returns (error: Option<Reason>)
      modifies this`violations, this`changed
      ensures Contents() == Rejected(old(Contents()), worker, reason) && error == Some(reason)
    {
      violations := violations + [Violation(worker, reason)];
      Notify();
      return Some(reason);
    }

    /** Registers the complete revision and replaces the set of workers expected to finish. */
    method RecordAssignments(revision: nat, given: map<string, LoadAssignment>)
      modifies this
      ensures Contents() == WithRevision(old(Contents()), revision, given)
    {
      var windows: map<string, Window> := map[];
      var remaining := given.Keys;
      while remaining != {}
        invariant remaining <= given.Keys
        invariant windows.Keys == given.Keys - remaining
        invariant forall w :: w in windows ==> windows[w] == WindowOf(revision, given[w])
        invariant Contents() == old(Contents())
        decreases remaining
      {
        var w :| w in remaining;
        var a := given[w];
        windows := windows[w := Window(revision, AsTime(a.startsAt), AsTime(a.deadline), IsActive(a.load))];
        remaining := remaining - {w};
      }
      assert windows == WindowsOf(revision, given);
      assignments := assignments[revision := windows];
      latest := windows;
      Notify();
    }

    /** Walks the recorded revisions between two deltas. */
    method RequiresContiguousInterval(worker: string, previous: nat, current: nat) returns (required: bool)
      requires previous <= current
      ensures required <==> RequiresContiguous(assignments, worker, previous, current)
    {
      if previous == 0 {
        return false;
      }
      var revision := previous;
      while revision <= current
        invariant previous <= revision <= current + 1
        invariant forall r: nat :: previous <= r < revision && r in assignments ==> ActiveIn(assignments, worker, r)
      {
        if revision in assignments && !ActiveIn(assignments, worker, revision) {
          return false;
        }
        if revision == current {
          break;
        }
        revision := revision + 1;
      }
      return true;
    }

    /** Checks every status code and adds up their counts. */
    method CheckStatusCodes(codes: Counts) returns (total: Option<nat>)
      ensures total.Some? <==> StatusCodesValid(codes)
      ensures total.Some? ==> total.value == Total(codes)
    {
      var sum := 0;
      var rest := codes;
      while rest.Keys != {}
        invariant rest.Keys <= codes.Keys
        invariant forall code :: code in codes.Keys && code !in rest.Keys ==> 100 <= code <= 599
        invariant sum + Total(rest) == Total(codes)
        invariant sum <= MAX_U64
        decreases |rest|
      {
        ghost var some := Member(rest.Keys);
        var code :| code in rest.Keys;
        TotalSplit(rest, code);
        if code < 100 || code > 599 {
          assert code in codes;
          return None;
        }
        if rest[code] > MAX_U64 - sum {
          return None;
        }
        sum := sum + rest[code];
        rest := rest - {code};
      }
      assert rest == map[];
      return Some(sum);
    }

    /** Validates counters and histogram of a delta and decodes them. */
    method ValidateSnapshot(d: MetricsDelta) returns (problem: Option<Reason>)
      ensures problem == SnapshotProblem(d)
    {
      if d.counters.None? {
        return Some(CountersRequired);
      }
      var c := d.counters.value;
      if c.succeeded > c.requests || c.failed != c.requests - c.succeeded {
        return Some(OutcomesMismatch);
      }
      if c.transportErrors > c.failed || c.clientErrors > c.failed - c.transportErrors
        || c.serverErrors != c.failed - c.transportErrors - c.clientErrors {
        return Some(FailuresMismatch);
      }
      var statuses := CheckStatusCodes(c.statusCodes);
      if statuses.None? {
        return Some(InvalidStatusCodes);
      }
      if statuses.value < c.requests - c.transportErrors || statuses.value > c.requests {
        return Some(StatusesMissing);
      }
      if !d.encoding.HdrV2Compressed? {
        return Some(UnsupportedEncoding);
      }
      if d.histogram.Malformed? {
        return Some(MalformedHistogram);
      }
      var observations := Tally(d.histogram.buckets);
      if observations != c.requests {
        return Some(ObservationsMismatch);
      }
      return None;
    }

    /** Everything Accept checks once the worker is known to hold a window, before any change. */
    method Examine(worker: string, d: MetricsDelta, window: Window)
      returns (verdict: Verdict, fleet: Snapshot, own: Snapshot)
      ensures verdict == JudgeAssigned(Contents(), worker, d, window)
      ensures verdict.Granted? ==>
        && fleet == Add(snapshot, Decoded(d))
        && own == Add(StateOf(Contents(), worker).snapshot, Decoded(d))
    {
      hide Fits, SnapshotProblem, IntervalProblem, Sum, Add;
      fleet, own := EMPTY, EMPTY;
      var state := if worker in workers then workers[worker] else NEW_WORKER;
      if d.sequence == state.lastSequence && state.lastDelta.Some? {
        return if d == state.lastDelta.value then Duplicate else Refused(SequenceConflict), fleet, own;
      }
      if d.sequence != (state.lastSequence + 1) % TWO_64 {
        return Refused(SequenceGap), fleet, own;
      }
      if d.revision < state.lastRevision {
        return Refused(OlderRevision), fleet, own;
      }
      if d.revision == state.closedRevision {
        return Refused(RevisionClosed), fleet, own;
      }
      var contiguous := RequiresContiguousInterval(worker, state.lastRevision, d.revision);
      var partialAllowed := worker in latest && latest[worker].revision > d.revision;
      var interval := IntervalProblem(d, window, state.lastInterval, contiguous, partialAllowed);
      if interval.Some? {
        return Refused(interval.value), fleet, own;
      }
      var problem := ValidateSnapshot(d);
      if problem.Some? {
        return Refused(problem.value), fleet, own;
      }
      var merged := Merge([snapshot, Decoded(d)]);
      if merged.None? {
        return Refused(FleetOverflow), fleet, own;
      }
      var workerMerged := Merge([state.snapshot, Decoded(d)]);
      if workerMerged.None? {
        return Refused(WorkerOverflow), fleet, own;
      }
      SumSmall(snapshot, Decoded(d));
      SumSmall(state.snapshot, Decoded(d));
      return Granted, merged.value, workerMerged.value;
    }

    /** Validates a delta completely before merging any of it. */
    method Accept(worker: string, delta: Option<MetricsDelta>) returns (error: Option<Reason>)
      modifies this
      ensures Contents() == Accepted(old(Contents()), worker, delta)
      ensures var verdict := Judge(old(Contents()), worker, delta);
        error == if verdict.Refused? then Some(verdict.reason) else None
    {
      hide Fits, SnapshotProblem, IntervalProblem, Sum, Add, JudgeAssigned;
      if delta.None? {
        error := Reject(worker, DeltaRequired);
        return;
      }
      var d := delta.value;
      if Trim(worker) == "" || d.workerId != worker {
        error := Reject(worker, WorkerMismatch);
        return;
      }
      if d.runId != runId {
        error := Reject(worker, RunMismatch);
        return;
      }
      if d.revision !in assignments {
        error := Reject(worker, UnknownRevision);
        return;
      }
      if worker !in assignments[d.revision] {
        error := Reject(worker, NotAssigned);
        return;
      }
      var verdict, fleet, own := Examine(worker, d, assignments[d.revision][worker]);
      match verdict {
        case Duplicate =>
          return None;
        case Refused(reason) =>
          error := Reject(worker, reason);
        case Granted =>
          Commit(worker, d, fleet, own);
          return None;
      }
    }

    /** Advances the worker's state and stores both merged snapshots. */
    method Commit(worker: string, d: MetricsDelta, fleet: Snapshot, own: Snapshot)
      requires fleet == Add(snapshot, Decoded(d))
      requires own == Add(StateOf(Contents(), worker).snapshot, Decoded(d))
      modifies this
      ensures Contents() == Committed(old(Contents()), worker, d)
    {
      hide Add;
      var state := if worker in workers then workers[worker] else NEW_WORKER;
      var end := AsTime(d.intervalEnd);
      snapshot := fleet;
      state := state.(snapshot := own);
      state := state.(lastSequence := d.sequence, lastDelta := Some(d));
      state := state.(lastInterval := end, lastRevision := d.revision);
      if d.finalForRevision {
        state := state.(closedRevision := d.revision);
      }
      if worker in latest {
        var l := latest[worker];
        if l.revision == d.revision && l.active && d.finalForRevision && end == l.deadline {
          state := state.(finalRevision := l.revision);
        }
      }
      workers := workers[worker := state];
      Notify();
    }

    /** The workers that still owe the latest revision its deadline delta, in order. */
    method MissingFinal() returns (missing: seq<string>)
      ensures Sorted(missing)
      ensures forall w :: multiset(missing)[w] == (if w in MissingFinals(Contents()) then 1 else 0)
    {
      var found: seq<string> := [];
      var remaining := latest.Keys;
      while remaining != {}
        invariant remaining <= latest.Keys
        invariant forall w :: multiset(found)[w] == (if w in MissingFinals(Contents()) - remaining then 1 else 0)
        decreases remaining
      {
        var w :| w in remaining;
        remaining := remaining - {w};
        if latest[w].active && (w !in workers || workers[w].finalRevision != latest[w].revision) {
          found := found + [w];
        }
      }
      missing := Sort(found);
      SortSorts(found);
    }

    method IsComplete() returns (complete: bool)
      ensures complete <==> Complete(Contents())
    {
      var missing := MissingFinal();
      if missing == [] {
        assert forall w :: multiset(missing)[w] == 0;
      } else {
        assert missing[0] in multiset(missing);
      }
      return missing == [];
    }
  }
}
