/** The worker's run controller: one event loop that applies assignments, starts and
    drains the scheduler, and cuts time into reported intervals. */
module RunControl {
  import opened Wire
  import opened CountMaps
  import opened Snapshots
  import opened Assignments

  /** The controller's loop variables; `outbound` is everything it has queued for sending. */
  datatype Controller = Controller(
    workerId: string,
    interval: int,
    current: Option<LoadAssignment>,
    hasCollector: bool,
    scheduling: bool,
    intervalStart: Time,
    sequence: nat,
    timerAt: Time,
    timerArmed: bool,
    halted: bool,
    outbound: seq<MetricsDelta>)

  function NewController(workerId: string, interval: int): Controller {
    Controller(workerId, interval, None, false, false, 0, 0, 0, false, false, [])
  }

  datatype Reply =
    | Applied
    | AlreadyApplied
    | Refused(reason: RefusalReason)
    | Overdue
    | FlushFailed
    | StartFailed
    | Closed

  /** The wire form of one interval, when its metadata is complete and its statuses fit. */
  function NewMetricsDelta(
    workerId: string, runId: string, revision: nat, sequence: nat, start: Time, end: Time,
    snapshot: Snapshot, finalForRevision: bool): Option<MetricsDelta>
  {
    if Trim(workerId) == "" || Trim(runId) == "" || revision == 0 || sequence == 0 || end <= start then None
    else if exists code :: code in snapshot.counters.statusCodes && !(MIN_I32 <= code <= MAX_I32) then None
    else Some(MetricsDelta(workerId, runId, revision, sequence, Some(start), Some(end),
                           Some(snapshot.counters), HdrV2Compressed, Encoded(snapshot.latencies),
                           finalForRevision))
  }

  /** The first reporting boundary after now, counted from the run's start and cut off at its deadline. */
  function NextMetricBoundary(started: Time, now: Time, deadline: Time, interval: int): Time
    requires interval > 0
  {
    if now < started then Min(started + interval, deadline)
    else Min(started + (Sub(now, started) / interval + 1) * interval, deadline)
  }

  /** The reporting boundaries of a run: whole intervals after its start. */
  predicate OnGrid(started: Time, interval: int, t: Time)
    requires interval > 0
  {
    t > started && (t - started) % interval == 0
  }

  /** No reporting boundary lies strictly between the two instants. */
  ghost predicate NoBoundaryInside(started: Time, interval: int, start: Time, end: Time)
    requires interval > 0
  {
    forall t :: start < t < end ==> !OnGrid(started, interval, t)
  }

  /** The next boundary is the first one after now, or the deadline if that comes first: it
      is one of them, and no boundary lies in between. */
  lemma BoundaryIsNext(started: Time, now: Time, deadline: Time, interval: int)
    requires interval > 0 && started < deadline && now < deadline && deadline - started <= MAX_I64
    ensures var from, next := Max(now, started), NextMetricBoundary(started, now, deadline, interval);
      && from < next <= deadline && next <= from + interval
      && (next == deadline || OnGrid(started, interval, next))
      && NoBoundaryInside(started, interval, from, next)
  {
    var elapsed := Max(now, started) - started;
    assert now >= started ==> Sub(now, started) == elapsed;
    assert elapsed == (elapsed / interval) * interval + elapsed % interval;
    var steps := elapsed / interval + 1;
    assert steps * interval == (elapsed / interval) * interval + interval;
    MultipleHasNoRemainder(steps, interval);
    var next := NextMetricBoundary(started, now, deadline, interval);
    FirstStep(interval);
    assert next <= started + steps * interval;
    forall t | Max(now, started) < t < next ensures !OnGrid(started, interval, t) {
      NoMultipleBetween(elapsed, interval, t - started);
    }
  }

  lemma FirstStep(interval: int)
    requires interval > 0
    ensures 0 / interval == 0 && 1 * interval == interval
  {
  }

  /** No multiple lies strictly between a number and the first multiple above it. */
  lemma NoMultipleBetween(a: int, d: int, m: int)
    requires d > 0 && a < m < (a / d + 1) * d
    ensures m % d != 0
  {
    var q, n := a / d, m / d;
    assert q * d <= a && m == n * d + m % d;
    if m % d == 0 {
      assert n * d == m;
      if n <= q {
        ProductOrder(n, q, d);
      } else {
        ProductOrder(q + 1, n, d);
      }
    }
  }

  lemma ProductOrder(a: int, b: int, d: int)
    requires d > 0 && a <= b
    ensures a * d <= b * d
  {
  }

  lemma ProductAtLeast(a: int, d: int)
    requires d > 0 && a >= 1
    ensures a * d >= d
  {
  }

  lemma QuotientIsUnique(n: int, q: int, r: int, d: int)
    requires d > 0 && 0 <= r < d && n * d == q * d + r
    ensures r == 0
  {
    assert (n - q) * d == r && (q - n) * d == -r;
    if n - q >= 1 {
      ProductAtLeast(n - q, d);
    } else if n - q <= -1 {
      ProductAtLeast(q - n, d);
    }
  }

  lemma MultipleHasNoRemainder(n: int, d: int)
    requires d > 0
    ensures (n * d) % d == 0
  {
    var x := n * d;
    QuotientIsUnique(n, x / d, x % d, d);
  }

  /** Reports the collected interval; a delta that cannot be built ends the loop. */
  function Flush(c: Controller, a: LoadAssignment, end: Time, content: Snapshot, finalForRevision: bool): Controller {
    var sequence := (c.sequence + 1) % TWO_64;
    var delta := NewMetricsDelta(c.workerId, a.runId, a.revision, sequence, c.intervalStart, end, content, finalForRevision);
    if delta.None? then c.(halted := true)
    else c.(outbound := c.outbound + [delta.value], sequence := sequence)
  }

  /** The controller reports intervals only under load and once it collects. */
  predicate Reports(c: Controller) {
    c.current.Some? && IsActive(c.current.value.load) && c.hasCollector
  }

  /** Stops the old scheduler and closes the old revision at the drained time. */
  function Drained(c: Controller, now: Time, content: Snapshot): (Controller, Reply) {
    if c.current.None? then (c, Applied)
    else
      var a := c.current.value;
      var stopped := c.(scheduling := false);
      var end := Min(now, AsTime(a.deadline));
      if !Reports(c) then (stopped, Applied)
      else if Sub(end, c.intervalStart) > c.interval then (stopped.(halted := true), Overdue)
      else if end > c.intervalStart then
        var flushed := Flush(stopped, a, end, content, true);
        (flushed, if flushed.halted then FlushFailed else Applied)
      else (stopped, Applied)
  }

  /** Makes the next assignment current, with its scheduler and its first boundary. */
  function Installed(c: Controller, next: LoadAssignment, now: Time, startOk: bool): (Controller, Reply)
    requires c.interval > 0
  {
    var startsAt, deadline := AsTime(next.startsAt), AsTime(next.deadline);
    var active := IsActive(next.load) && now < deadline;
    if active && !startOk then (c.(hasCollector := true, scheduling := false), StartFailed)
    else if active then
      (c.(hasCollector := true, scheduling := true, intervalStart := Max(now, startsAt),
          timerAt := NextMetricBoundary(startsAt, now, deadline, c.interval), timerArmed := true,
          current := Some(next)), Applied)
    else (c.(intervalStart := startsAt, timerAt := deadline, timerArmed := true, current := Some(next)), Applied)
  }

  /** One assignment command. The time is read after the old scheduler has drained. */
  function Apply(c: Controller, next: LoadAssignment, now: Time, content: Snapshot, startOk: bool): (Controller, Reply)
    requires c.interval > 0
  {
    if c.halted then (c, Closed)
    else match Transition(c.current, next)
      case Duplicate => (c, AlreadyApplied)
      case Refuse(reason) => (c, Refused(reason))
      case Replace =>
        var (drained, reply) := Drained(c, now, content);
        if drained.halted then (drained, reply) else Installed(drained, next, now, startOk)
  }

  /** One firing of the boundary timer. */
  function Fired(c: Controller, content: Snapshot): Controller
    requires c.interval > 0
  {
    if c.halted || !c.timerArmed || c.current.None? then c
    else
      var a := c.current.value;
      var startsAt, deadline := AsTime(a.startsAt), AsTime(a.deadline);
      if c.timerAt >= deadline then
        var stopped := c.(scheduling := false);
        var closed := if Reports(c) && deadline > c.intervalStart
                      then Flush(stopped, a, deadline, content, true) else stopped;
        if closed.halted then closed else closed.(timerArmed := false)
      else
        var reporting := Reports(c) && c.timerAt > c.intervalStart;
        var flushed := if reporting then Flush(c, a, c.timerAt, content, false) else c;
        if flushed.halted then flushed
        else flushed.(intervalStart := if reporting then c.timerAt else c.intervalStart,
                      timerAt := NextMetricBoundary(startsAt, c.timerAt, deadline, c.interval))
  }

  /** The scheduler ended by itself; an error ends the loop. */
  function SchedulerEnded(c: Controller, failed: bool): Controller {
    if c.halted then c else c.(scheduling := false, halted := failed)
  }

  function Cancelled(c: Controller): Controller {
    c.(halted := true, scheduling := false)
  }

  /** A step whose send is cut short by cancellation, while the outbound queue is full,
      ends the loop as if it had been cancelled before the step; any other step is itself. */
  function CutShort(c: Controller, next: Controller, cancelled: bool): Controller {
    if cancelled && |next.outbound| > |c.outbound| then Cancelled(c) else next
  }

  /** A drain halts the controller exactly when it does not succeed, and emits only when it does. */
  lemma DrainHalts(c: Controller, now: Time, content: Snapshot)
    requires !c.halted
    ensures var (drained, reply) := Drained(c, now, content);
      && (drained.halted <==> reply != Applied)
      && (drained.halted ==> drained.outbound == c.outbound)
      && |drained.outbound| >= |c.outbound|
  {
    hide NewMetricsDelta;
  }

  // ----- The controller object -------------------------------------------------------------

  class RunController {
    const workerId: string
    const interval: int
    var current: Option<LoadAssignment>
    var hasCollector: bool
    var scheduling: bool
    var intervalStart: Time
    var sequence: nat
    var timerAt: Time
    var timerArmed: bool
    var halted: bool
    var outbound: seq<MetricsDelta>

    ghost function Contents(): Controller
      reads this
    {
      Controller(workerId, interval, current, hasCollector, scheduling, intervalStart, sequence, timerAt,
                 timerArmed, halted, outbound)
    }

    constructor (workerId: string, interval: int)
      requires interval > 0 && workerId != ""
      ensures Contents() == NewController(workerId, interval)
    {
      this.workerId, this.interval := workerId, interval;
      current, hasCollector, scheduling, intervalStart, sequence := None, false, false, 0, 0;
      timerAt, timerArmed, halted, outbound := 0, false, false, [];
    }

    /** Queues the delta of one interval and advances the sequence only when it was built
        and queued; it is not queued when cancellation comes first. */
    method SendInterval(a: LoadAssignment, end: Time, content: Snapshot, finalForRevision: bool, cancelled: bool)
      returns (ok: bool)
      modifies this`outbound, this`sequence, this`halted, this`scheduling
      ensures Contents() == CutShort(old(Contents()), Flush(old(Contents()), a, end, content, finalForRevision), cancelled)
      ensures ok <==> |outbound| > |old(outbound)|
      ensures !old(halted) ==> (ok <==> !halted)
    {
      var next := (sequence + 1) % TWO_64;
      var delta := NewMetricsDelta(workerId, a.runId, a.revision, next, intervalStart, end, content, finalForRevision);
      if delta.None? {
        halted := true;
        return false;
      }
      if cancelled {
        halted, scheduling := true, false;
        return false;
      }
      outbound := outbound + [delta.value];
      sequence := next;
      return true;
    }

    /** Stops the old scheduler and closes its revision at the drained time. */
    method Drain(now: Time, content: Snapshot, cancelled: bool) returns (reply: Reply)
      requires !halted
      modifies this
      ensures var (drained, answer) := Drained(old(Contents()), now, content);
        && Contents() == CutShort(old(Contents()), drained, cancelled)
        && reply == if cancelled && |drained.outbound| > |old(outbound)| then FlushFailed else answer
      ensures halted <==> reply != Applied
    {
      hide NewMetricsDelta;
      if current.None? {
        return Applied;
      }
      var a := current.value;
      scheduling := false;
      var transitionEnd := Min(now, AsTime(a.deadline));
      if IsActive(a.load) && hasCollector {
        if Sub(transitionEnd, intervalStart) > interval {
          halted := true;
          return Overdue;
        }
        if transitionEnd > intervalStart {
          var ok := SendInterval(a, transitionEnd, content, true, cancelled);
          return if ok then Applied else FlushFailed;
        }
      }
      return Applied;
    }

    /** Makes the next assignment current, with its scheduler and its first boundary. */
    method Install(next: LoadAssignment, now: Time, startOk: bool) returns (reply: Reply)
      requires interval > 0
      modifies this
      ensures (Contents(), reply) == Installed(old(Contents()), next, now, startOk)
    {
      hide NextMetricBoundary;
      var startsAt, deadline := AsTime(next.startsAt), AsTime(next.deadline);
      var active := IsActive(next.load) && now < deadline;
      if active {
        hasCollector := true;
        scheduling := startOk;
        if !startOk {
          return StartFailed;
        }
        intervalStart := Max(now, startsAt);
        timerAt := NextMetricBoundary(startsAt, now, deadline, interval);
      } else {
        intervalStart := startsAt;
        timerAt := deadline;
      }
      timerArmed := true;
      current := Some(next);
      return Applied;
    }

    /** Validates, drains and closes the current revision, then installs the next one. */
    method ApplyAssignment(next: LoadAssignment, now: Time, content: Snapshot, startOk: bool, cancelled: bool)
      returns (reply: Reply)
      requires interval > 0
      modifies this
      ensures var (after, answer) := Apply(old(Contents()), next, now, content, startOk);
        && Contents() == CutShort(old(Contents()), after, cancelled)
        && reply == if cancelled && |after.outbound| > |old(outbound)| then FlushFailed else answer
    {
      hide Flush, Problem, NextMetricBoundary;
      if halted {
        return Closed;
      }
      var transition := Transition(current, next);
      if transition.Refuse? {
        return Refused(transition.reason);
      }
      if transition.Duplicate? {
        return AlreadyApplied;
      }
      DrainHalts(Contents(), now, content);
      reply := Drain(now, content, cancelled);
      if reply == Applied {
        reply := Install(next, now, startOk);
      }
    }

    method OnTimer(content: Snapshot, cancelled: bool)
      requires interval > 0
      modifies this
      ensures Contents() == CutShort(old(Contents()), Fired(old(Contents()), content), cancelled)
    {
      hide NewMetricsDelta, NextMetricBoundary;
      if halted || !timerArmed || current.None? {
        return;
      }
      var a := current.value;
      var deadline := AsTime(a.deadline);
      if timerAt >= deadline {
        scheduling := false;
        if IsActive(a.load) && hasCollector && deadline > intervalStart {
          var ok := SendInterval(a, deadline, content, true, cancelled);
          if !ok {
            return;
          }
        }
        timerArmed := false;
        return;
      }
      if IsActive(a.load) && hasCollector && timerAt > intervalStart {
        var ok := SendInterval(a, timerAt, content, false, cancelled);
        if !ok {
          return;
        }
        intervalStart := timerAt;
      }
      timerAt := NextMetricBoundary(AsTime(a.startsAt), timerAt, deadline, interval);
    }

    method OnSchedulerDone(failed: bool)
      modifies this
      ensures Contents() == SchedulerEnded(old(Contents()), failed)
    {
      if !halted {
        scheduling := false;
        if failed {
          halted := true;
        }
      }
    }
  }
}
