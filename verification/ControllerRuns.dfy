/** Whole runs of one run controller, whatever commands, firings and interruptions reach it. */
module ControllerRuns {
  import opened Wire
  import opened Snapshots
  import opened Assignments
  import opened Aggregation
  import opened RunControl

  /** What the event loop may handle next. */
  datatype Event =
    | Assign(next: LoadAssignment, now: Time, content: Snapshot, startOk: bool, cancelled: bool)
    | Timer(content: Snapshot, cancelled: bool)
    | SchedulerDone(failed: bool)
    | Cancel

  function Handled(c: Controller, e: Event): Controller
    requires c.interval > 0
  {
    match e
    case Assign(next, now, content, startOk, cancelled) =>
      CutShort(c, Apply(c, next, now, content, startOk).0, cancelled)
    case Timer(content, cancelled) => CutShort(c, Fired(c, content), cancelled)
    case SchedulerDone(failed) => SchedulerEnded(c, failed)
    case Cancel => Cancelled(c)
  }

  // ----- What one event reports ---------------------------------------------------------------

  /** The delta tells the open interval of the current assignment up to this end. */
  ghost predicate Tells(c: Controller, d: MetricsDelta, end: Time, content: Snapshot, finalForRevision: bool)
    requires c.current.Some?
  {
    && d.workerId == c.workerId && d.runId == c.current.value.runId && d.revision == c.current.value.revision
    && d.sequence == (c.sequence + 1) % 0x1_0000_0000_0000_0000
    && d.intervalStart == Some(c.intervalStart) && d.intervalEnd == Some(end)
    && d.counters.Some? && d.encoding.HdrV2Compressed? && d.histogram.Encoded? && Decoded(d) == content
    && d.finalForRevision == finalForRevision
  }

  /** Exactly one delta is added. */
  ghost predicate ReportsOnce(c: Controller, after: Controller, end: Time, content: Snapshot, finalForRevision: bool)
    requires c.current.Some?
  {
    && |after.outbound| == |c.outbound| + 1 && after.outbound[..|c.outbound|] == c.outbound
    && Tells(c, after.outbound[|c.outbound|], end, content, finalForRevision)
    && after.sequence == (c.sequence + 1) % 0x1_0000_0000_0000_0000
  }

  ghost predicate ReportsNothing(c: Controller, after: Controller) {
    after.outbound == c.outbound && after.sequence == c.sequence
  }

  /** The worker has a name, the delta a number other than 0, and the statuses fit 32 bits. */
  ghost predicate Writable(c: Controller, content: Snapshot) {
    && !AllSpace(c.workerId)
    && c.sequence % 0x1_0000_0000_0000_0000 != 0xFFFF_FFFF_FFFF_FFFF
    && forall code :: code in content.counters.statusCodes ==> -0x8000_0000 <= code <= 0x7FFF_FFFF
  }

  /** A flush of a non-empty interval reports it, exactly when it can be written. */
  lemma FlushExactly(c: Controller, end: Time, content: Snapshot, finalForRevision: bool)
    requires c.current.Some? && WellFormed(c.current.value) && end > c.intervalStart && !c.halted
    ensures var f := Flush(c, c.current.value, end, content, finalForRevision);
      && (f.halted <==> !Writable(c, content))
      && (if f.halted then f == c.(halted := true)
          else ReportsOnce(c, f, end, content, finalForRevision)
               && f == c.(outbound := f.outbound, sequence := f.sequence))
  {
    TrimIsExact(c.workerId);
    TrimIsExact(c.current.value.runId);
    hide Trim, AllSpace;
  }

  /** A replacement first closes what the current assignment has open: everything up to now
      or the deadline goes out as one final delta, unless there is nothing, or it is longer
      than the interval, which ends the controller. */
  lemma ReplacementReportsExactly(c: Controller, next: LoadAssignment, now: Time, content: Snapshot, startOk: bool)
    requires 0 < c.interval < MAX_I64 && !c.halted && c.current.Some? && WellFormed(c.current.value)
    requires Transition(c.current, next) == Replace
    ensures var (after, reply) := Apply(c, next, now, content, startOk);
      var end := Min(now, AsTime(c.current.value.deadline));
      && (reply in {Overdue, FlushFailed} <==> after.halted)
      && (reply == Overdue <==> Reports(c) && end - c.intervalStart > c.interval)
      && (reply == FlushFailed <==> Reports(c) && 0 < end - c.intervalStart <= c.interval && !Writable(c, content))
      && if Reports(c) && 0 < end - c.intervalStart <= c.interval && Writable(c, content)
         then ReportsOnce(c, after, end, content, true) else ReportsNothing(c, after)
  {
    DrainReportsExactly(c, now, content);
    hide Flush, Transition, NextMetricBoundary, Writable, WellFormed, Drained, Problem, Tells;
  }

  lemma DrainReportsExactly(c: Controller, now: Time, content: Snapshot)
    requires 0 < c.interval < MAX_I64 && !c.halted && c.current.Some? && WellFormed(c.current.value)
    ensures var (drained, reply) := Drained(c, now, content);
      var end := Min(now, AsTime(c.current.value.deadline));
      && (drained.halted <==> reply in {Overdue, FlushFailed}) && drained.interval == c.interval
      && (!drained.halted ==> reply == Applied)
      && (reply == Overdue <==> Reports(c) && end - c.intervalStart > c.interval)
      && (reply == FlushFailed <==> Reports(c) && 0 < end - c.intervalStart <= c.interval && !Writable(c, content))
      && if Reports(c) && 0 < end - c.intervalStart <= c.interval && Writable(c, content)
         then ReportsOnce(c, drained, end, content, true) else ReportsNothing(c, drained)
  {
    var stopped, end := c.(scheduling := false), Min(now, AsTime(c.current.value.deadline));
    if Reports(c) && end > c.intervalStart {
      FlushExactly(stopped, end, content, true);
    }
    assert Writable(stopped, content) == Writable(c, content);
    hide Flush, WellFormed, Writable, IsActive;
  }

  /** The first reporting boundary after an instant, or the deadline if that comes first. */
  ghost predicate FirstBoundary(started: Time, deadline: Time, interval: int, from: Time, t: Time)
    requires interval > 0
  {
    && from < t <= deadline
    && (t == deadline || OnGrid(started, interval, t))
    && NoBoundaryInside(started, interval, from, t)
  }

  predicate UnderLoadAt(a: LoadAssignment, now: Time) {
    IsActive(a.load) && now < AsTime(a.deadline)
  }

  /** A controller that has closed the old revision makes the next assignment current: under
      load before its deadline it collects from now on and reports at the next boundary,
      otherwise it waits for the deadline. A scheduler that does not start leaves the old
      assignment current. */
  lemma ReplacementInstallsExactly(c: Controller, next: LoadAssignment, now: Time, content: Snapshot, startOk: bool)
    requires 0 < c.interval && !c.halted && (c.current.None? ==> !c.scheduling)
    requires Transition(c.current, next) == Replace && !Apply(c, next, now, content, startOk).0.halted
    ensures var (after, reply) := Apply(c, next, now, content, startOk);
      var active, startsAt, deadline := UnderLoadAt(next, now), AsTime(next.startsAt), AsTime(next.deadline);
      && reply == (if active && !startOk then StartFailed else Applied)
      && (after.scheduling <==> active && startOk) && after.hasCollector == (c.hasCollector || active)
      && (reply == StartFailed ==>
            && after.current == c.current && after.intervalStart == c.intervalStart
            && after.timerArmed == c.timerArmed && after.timerAt == c.timerAt)
      && (reply == Applied ==>
            && after.current == Some(next) && after.timerArmed
            && after.intervalStart == (if active then Max(now, startsAt) else startsAt)
            && (!active ==> after.timerAt == deadline)
            && (active && deadline - startsAt <= MAX_I64 ==>
                  FirstBoundary(startsAt, deadline, c.interval, after.intervalStart, after.timerAt)))
  {
    var (drained, answer) := Drained(c, now, content);
    DrainLeaves(c, now, content);
    ReplacementIsComplete(c, next);
    var startsAt, deadline := AsTime(next.startsAt), AsTime(next.deadline);
    if UnderLoadAt(next, now) && deadline - startsAt <= MAX_I64 {
      BoundaryIsNext(startsAt, now, deadline, c.interval);
    }
    hide Drained, Transition, NextMetricBoundary, NoBoundaryInside, OnGrid, IsActive, WellFormed;
  }

  lemma ReplacementIsComplete(c: Controller, next: LoadAssignment)
    requires Transition(c.current, next) == Replace
    ensures WellFormed(next) && AsTime(next.startsAt) < AsTime(next.deadline)
  {
    AssignmentCheckedExactly(next);
    hide AllSpace, Problem;
  }

  /** Draining touches only what was reported, and stops the scheduler. */
  lemma DrainLeaves(c: Controller, now: Time, content: Snapshot)
    requires !c.halted && (c.current.None? ==> !c.scheduling)
    ensures var (drained, answer) := Drained(c, now, content);
      && drained == c.(scheduling := false, outbound := drained.outbound, sequence := drained.sequence, halted := drained.halted)
      && (drained.halted <==> answer != Applied)
  {
    hide NewMetricsDelta;
  }

  /** A firing reports the open interval up to its boundary, as the final delta at the
      deadline; after that the timer is off, otherwise it is set for the next boundary. */
  lemma FiringReportsExactly(c: Controller, content: Snapshot)
    requires 0 < c.interval && !c.halted && c.timerArmed && c.current.Some? && WellFormed(c.current.value)
    ensures var after, startsAt, deadline := Fired(c, content), AsTime(c.current.value.startsAt), AsTime(c.current.value.deadline);
      var end := Min(c.timerAt, deadline);
      && (after.halted <==> Reports(c) && end > c.intervalStart && !Writable(c, content))
      && (if Reports(c) && end > c.intervalStart && Writable(c, content)
          then ReportsOnce(c, after, end, content, c.timerAt >= deadline) else ReportsNothing(c, after))
      && after.current == c.current && after.hasCollector == c.hasCollector
      && (!after.halted && c.timerAt >= deadline ==>
            !after.timerArmed && !after.scheduling && after.intervalStart == c.intervalStart)
      && (!after.halted && c.timerAt < deadline ==>
            && after.timerArmed && after.scheduling == c.scheduling
            && after.intervalStart == (if Reports(c) then Max(c.intervalStart, c.timerAt) else c.intervalStart)
            && (c.timerAt >= startsAt && deadline - startsAt <= MAX_I64 ==>
                  FirstBoundary(startsAt, deadline, c.interval, c.timerAt, after.timerAt)))
  {
    var startsAt, deadline := AsTime(c.current.value.startsAt), AsTime(c.current.value.deadline);
    var closing := c.timerAt >= deadline;
    var stopped, end := if closing then c.(scheduling := false) else c, Min(c.timerAt, deadline);
    if Reports(c) && end > c.intervalStart {
      FlushExactly(stopped, end, content, closing);
    }
    WindowIsOpen(c.current.value);
    assert Writable(stopped, content) == Writable(c, content);
    if !closing && startsAt <= c.timerAt && deadline - startsAt <= MAX_I64 {
      BoundaryIsNext(startsAt, c.timerAt, deadline, c.interval);
    }
    hide Flush, WellFormed, Writable, NextMetricBoundary, NoBoundaryInside, OnGrid, IsActive;
  }

  lemma WindowIsOpen(a: LoadAssignment)
    requires WellFormed(a)
    ensures AsTime(a.startsAt) < AsTime(a.deadline)
  {
    hide AllSpace;
  }

  /** The end of a scheduler reports nothing: an error ends the controller, and any other
      end leaves all but the scheduler as it was. */
  lemma SchedulerEndExactly(c: Controller, failed: bool)
    requires !c.halted
    ensures var after := SchedulerEnded(c, failed);
      ReportsNothing(c, after) && (after.halted <==> failed) && !after.scheduling
      && after.current == c.current && after.hasCollector == c.hasCollector && after.intervalStart == c.intervalStart
      && after.timerArmed == c.timerArmed && after.timerAt == c.timerAt
  {
  }

  // ----- Whole runs ---------------------------------------------------------------------------

  /** What an assignment command is answered. */
  function Answer(c: Controller, e: Event): Reply
    requires c.interval > 0 && e.Assign?
  {
    var (after, reply) := Apply(c, e.next, e.now, e.content, e.startOk);
    if e.cancelled && |after.outbound| > |c.outbound| then FlushFailed else reply
  }

  /** A controller and the assignments it has made current, in order. */
  datatype Past = Past(ctrl: Controller, taken: seq<LoadAssignment>)

  function Lived(p: Past, e: Event): Past
    requires p.ctrl.interval > 0
  {
    Past(Handled(p.ctrl, e),
         if e.Assign? && Answer(p.ctrl, e) == Applied then p.taken + [e.next] else p.taken)
  }

  function Run(workerId: string, interval: int, events: seq<Event>): (p: Past)
    requires interval > 0
    ensures p.ctrl.interval == interval && p.ctrl.workerId == workerId
    decreases |events|
  {
    if events == [] then Past(NewController(workerId, interval), [])
    else
      var p := Run(workerId, interval, events[..|events| - 1]);
      HandledKeepsIdentity(p.ctrl, events[|events| - 1]);
      Lived(p, events[|events| - 1])
  }

  lemma HandledKeepsIdentity(c: Controller, e: Event)
    requires c.interval > 0
    ensures Handled(c, e).interval == c.interval && Handled(c, e).workerId == c.workerId
  {
    hide Transition, NextMetricBoundary, Drained, Fired;
    if e.Assign? {
      DrainKeepsIdentity(c, e.now, e.content);
    } else if e.Timer? {
      FireKeepsIdentity(c, e.content);
    }
  }

  lemma DrainKeepsIdentity(c: Controller, now: Time, content: Snapshot)
    ensures var drained := Drained(c, now, content).0;
      drained.current == c.current && drained.interval == c.interval && drained.workerId == c.workerId
  {
    hide NewMetricsDelta;
  }

  lemma FireKeepsIdentity(c: Controller, content: Snapshot)
    requires c.interval > 0
    ensures Fired(c, content).interval == c.interval && Fired(c, content).workerId == c.workerId
  {
    hide NewMetricsDelta, NextMetricBoundary;
  }

  /** A delta tells a non-empty interval of an assignment with load, inside its window. */
  ghost predicate ToldOf(a: LoadAssignment, d: MetricsDelta) {
    && IsActive(a.load) && d.runId == a.runId && d.revision == a.revision
    && d.intervalStart.Some? && d.intervalEnd.Some?
    && AsTime(a.startsAt) <= d.intervalStart.value < d.intervalEnd.value <= AsTime(a.deadline)
  }

  ghost predicate Told(workerId: string, taken: seq<LoadAssignment>, d: MetricsDelta, i: nat) {
    && d.workerId == workerId && d.sequence == (i + 1) % TWO_64
    && exists a :: a in taken && ToldOf(a, d)
  }

  /** Revisions never go back, and an interval that did not close its revision is continued
      by the next one of that revision without a gap. */
  ghost predicate GoesOnFrom(d: MetricsDelta, revision: nat, start: Time) {
    && d.revision <= revision
    && (d.revision == revision && !d.finalForRevision ==> AsTime(d.intervalEnd) == start)
  }

  ghost predicate InOrder(outbound: seq<MetricsDelta>) {
    forall i :: 0 < i < |outbound| ==>
      GoesOnFrom(outbound[i - 1], outbound[i].revision, AsTime(outbound[i].intervalStart))
  }

  ghost predicate Orderly(p: Past) {
    var c := p.ctrl;
    && Chain(p.taken) && c.current == Latest(p.taken)
    && c.sequence == |c.outbound| % TWO_64
    && (c.current.None? ==> !c.scheduling && !c.timerArmed && c.outbound == [])
    && (c.current.Some? ==>
          && AsTime(c.current.value.startsAt) <= c.intervalStart
          && (c.outbound != [] ==>
                GoesOnFrom(c.outbound[|c.outbound| - 1], c.current.value.revision, c.intervalStart)))
    && (forall i :: 0 <= i < |c.outbound| ==> Told(c.workerId, p.taken, c.outbound[i], i))
    && InOrder(c.outbound)
  }

  /** One more report of the current assignment keeps the record orderly. */
  lemma ReportKeepsOrder(p: Past, after: Controller, end: Time, content: Snapshot, finalForRevision: bool)
    requires Orderly(p) && Reports(p.ctrl) && p.ctrl.intervalStart < end <= AsTime(p.ctrl.current.value.deadline)
    requires ReportsOnce(p.ctrl, after, end, content, finalForRevision) && after.workerId == p.ctrl.workerId
    ensures after.sequence == |after.outbound| % TWO_64 && InOrder(after.outbound)
    ensures forall i :: 0 <= i < |after.outbound| ==> Told(after.workerId, p.taken, after.outbound[i], i)
    ensures after.outbound != [] && after.outbound[|after.outbound| - 1].revision == p.ctrl.current.value.revision
    ensures var last := after.outbound[|after.outbound| - 1]; last.finalForRevision == finalForRevision && AsTime(last.intervalEnd) == end
  {
    hide Chain, IsActive;
    var c, n := p.ctrl, |p.ctrl.outbound|;
    var a := c.current.value;
    assert a in p.taken;
    assert after.outbound == c.outbound + [after.outbound[n]];
    assert ToldOf(a, after.outbound[n]);
    assert (n + 1) % TWO_64 == (n % TWO_64 + 1) % TWO_64;
  }

  lemma TakenMore(workerId: string, taken: seq<LoadAssignment>, a: LoadAssignment, d: MetricsDelta, i: nat)
    requires Told(workerId, taken, d, i)
    ensures Told(workerId, taken + [a], d, i)
  {
    var b :| b in taken && ToldOf(b, d);
    assert b in taken + [a];
  }

  /** The current assignment is complete, and stays the last one taken. */
  lemma CurrentIsComplete(p: Past)
    requires Orderly(p) && p.ctrl.current.Some?
    ensures WellFormed(p.ctrl.current.value)
  {
    hide WellFormed, Supersedes, InOrder, Told;
  }

  lemma DrainKeepsOrder(p: Past, now: Time, content: Snapshot)
    requires Orderly(p) && 0 < p.ctrl.interval < MAX_I64 && !p.ctrl.halted
    ensures Orderly(Past(Drained(p.ctrl, now, content).0, p.taken))
  {
    var c := p.ctrl;
    DrainLeaves(c, now, content);
    if c.current.Some? {
      CurrentIsComplete(p);
      DrainReportsExactly(c, now, content);
      var drained, end := Drained(c, now, content).0, Min(now, AsTime(c.current.value.deadline));
      hide Drained, Writable, WellFormed, Chain, ReportsOnce, Told, InOrder, IsActive;
      if Reports(c) && 0 < end - c.intervalStart <= c.interval && Writable(c, content) {
        ReportKeepsOrder(p, drained, end, content, true);
      }
    }
  }

  lemma InstallKeepsOrder(p: Past, next: LoadAssignment, now: Time, startOk: bool)
    requires Orderly(p) && 0 < p.ctrl.interval && Transition(p.ctrl.current, next) == Replace
    ensures var (after, reply) := Installed(p.ctrl, next, now, startOk);
      Orderly(Past(after, if reply == Applied then p.taken + [next] else p.taken))
  {
    var (after, reply) := Installed(p.ctrl, next, now, startOk);
    InstallLeaves(p.ctrl, next, now, startOk);
    hide Installed;
    if reply == Applied {
      TakeKeepsOrder(p, after, next);
    } else {
      StopKeepsOrder(p, p.ctrl.(scheduling := false));
      CollectorIsNotPartOfIt(Past(p.ctrl.(scheduling := false), p.taken));
    }
  }

  lemma InstallLeaves(c: Controller, next: LoadAssignment, now: Time, startOk: bool)
    requires c.interval > 0
    ensures var (after, reply) := Installed(c, next, now, startOk);
      && (reply != Applied ==> after == c.(hasCollector := true, scheduling := false))
      && (reply == Applied ==>
            && after.workerId == c.workerId && after.current == Some(next)
            && after.sequence == c.sequence && after.outbound == c.outbound
            && AsTime(next.startsAt) <= after.intervalStart)
  {
    hide NextMetricBoundary;
  }

  lemma CollectorIsNotPartOfIt(p: Past)
    requires Orderly(p)
    ensures Orderly(p.(ctrl := p.ctrl.(hasCollector := true)))
  {
    hide Chain, Told, InOrder;
  }

  lemma TakeKeepsOrder(p: Past, after: Controller, next: LoadAssignment)
    requires Orderly(p) && Transition(p.ctrl.current, next) == Replace
    requires after.workerId == p.ctrl.workerId && after.current == Some(next)
    requires after.sequence == p.ctrl.sequence && after.outbound == p.ctrl.outbound
    requires AsTime(next.startsAt) <= after.intervalStart
    ensures Orderly(Past(after, p.taken + [next]))
  {
    TransitionExactly(p.taken, next);
    hide Transition, Chain, Told, InOrder;
    var c := p.ctrl;
    forall i | 0 <= i < |c.outbound| ensures Told(c.workerId, p.taken + [next], c.outbound[i], i) {
      TakenMore(c.workerId, p.taken, next, c.outbound[i], i);
    }
    if c.outbound != [] {
      NewerThanCurrent(p, next);
    }
  }

  lemma NewerThanCurrent(p: Past, next: LoadAssignment)
    requires Chain(p.taken + [next]) && p.ctrl.current == Latest(p.taken) && p.ctrl.current.Some?
    ensures p.ctrl.current.value.revision < next.revision
  {
    hide WellFormed;
    var n := |p.taken|;
    assert Supersedes((p.taken + [next])[n], (p.taken + [next])[n - 1]);
  }

  lemma FireKeepsOrder(p: Past, content: Snapshot)
    requires Orderly(p) && 0 < p.ctrl.interval && !p.ctrl.halted
    ensures Orderly(Past(Fired(p.ctrl, content), p.taken))
  {
    var c := p.ctrl;
    if c.timerArmed {
      CurrentIsComplete(p);
      FiringReportsExactly(c, content);
      FiringKeepsRest(c, content);
      var end := Min(c.timerAt, AsTime(c.current.value.deadline));
      hide Fired, Writable, WellFormed, Chain, ReportsOnce, Told, InOrder, IsActive, FirstBoundary;
      if Reports(c) && end > c.intervalStart && Writable(c, content) {
        ReportKeepsOrder(p, Fired(c, content), end, content, c.timerAt >= AsTime(c.current.value.deadline));
      }
    }
  }

  lemma FiringKeepsRest(c: Controller, content: Snapshot)
    requires c.interval > 0
    ensures Fired(c, content).workerId == c.workerId
    ensures Fired(c, content).halted ==> Fired(c, content).intervalStart == c.intervalStart
  {
    hide NewMetricsDelta, NextMetricBoundary;
  }

  /** A controller that is cancelled, stopped or left alone keeps its record. */
  lemma StopKeepsOrder(p: Past, after: Controller)
    requires Orderly(p) && after == p.ctrl.(scheduling := after.scheduling, halted := after.halted)
    requires after.scheduling ==> p.ctrl.scheduling
    ensures Orderly(Past(after, p.taken))
  {
    hide Chain, Told, InOrder;
  }

  lemma AssignKeepsOrder(p: Past, e: Event)
    requires Orderly(p) && 0 < p.ctrl.interval < MAX_I64 && e.Assign?
    ensures Orderly(Lived(p, e))
  {
    hide Orderly, Transition, Drained, Installed, Problem;
    var c := p.ctrl;
    var (after, reply) := Apply(c, e.next, e.now, e.content, e.startOk);
    if c.halted || Transition(c.current, e.next) != Replace {
    } else if e.cancelled && |after.outbound| > |c.outbound| {
      StopKeepsOrder(p, Cancelled(c));
    } else {
      DrainKeepsOrder(p, e.now, e.content);
      DrainHalts(c, e.now, e.content);
      DrainKeepsIdentity(c, e.now, e.content);
      var drained := Drained(c, e.now, e.content).0;
      if !drained.halted {
        InstallKeepsOrder(Past(drained, p.taken), e.next, e.now, e.startOk);
      }
    }
  }

  lemma EventKeepsOrder(p: Past, e: Event)
    requires Orderly(p) && 0 < p.ctrl.interval < MAX_I64
    ensures Orderly(Lived(p, e))
  {
    hide Orderly, RunControl.Apply, Fired;
    match e {
      case Assign(_, _, _, _, _) => AssignKeepsOrder(p, e);
      case Timer(content, cancelled) =>
        if p.ctrl.halted {
          HaltedIgnores(p.ctrl, e);
          StopKeepsOrder(p, Handled(p.ctrl, e));
        } else if cancelled && |Fired(p.ctrl, content).outbound| > |p.ctrl.outbound| {
          StopKeepsOrder(p, Cancelled(p.ctrl));
        } else {
          FireKeepsOrder(p, content);
        }
      case SchedulerDone(failed) => StopKeepsOrder(p, SchedulerEnded(p.ctrl, failed));
      case Cancel => StopKeepsOrder(p, Cancelled(p.ctrl));
    }
  }

  /** A controller that has ended does nothing more but drop its scheduler. */
  lemma HaltedIgnores(c: Controller, e: Event)
    requires c.interval > 0 && c.halted
    ensures Handled(c, e) == c.(scheduling := Handled(c, e).scheduling)
    ensures Handled(c, e).scheduling ==> c.scheduling
    ensures e.Assign? ==> Answer(c, e) == Closed
  {
  }

  /** Whatever reaches a controller, in whatever order and at whatever times: what it made
      current is a chain of complete assignments, each superseding all before it, and what it
      reported are intervals of those, numbered in order, never back in revision, and without
      a gap inside a revision. */
  lemma {:induction false} EveryRunIsOrderly(workerId: string, interval: int, events: seq<Event>)
    requires 0 < interval < MAX_I64
    ensures Orderly(Run(workerId, interval, events))
    decreases |events|
  {
    hide Lived;
    if events == [] {
    } else {
      hide Orderly;
      var init := events[..|events| - 1];
      EveryRunIsOrderly(workerId, interval, init);
      EventKeepsOrder(Run(workerId, interval, init), events[|events| - 1]);
    }
  }

  /** In any run, a controller that still works takes exactly the complete assignments that
      supersede all it has taken, answers its latest one again without doing anything, and
      refuses all others without doing anything. */
  lemma EveryAnswerIsExact(workerId: string, interval: int, events: seq<Event>, e: Event)
    requires 0 < interval < MAX_I64 && e.Assign? && !Run(workerId, interval, events).ctrl.halted
    ensures var p := Run(workerId, interval, events);
      var again, takes := p.taken != [] && e.next == p.taken[|p.taken| - 1], Chain(p.taken + [e.next]);
      && (Answer(p.ctrl, e) == AlreadyApplied <==> again)
      && (Answer(p.ctrl, e).Refused? <==> !again && !takes)
      && (Answer(p.ctrl, e) == Applied ==> takes && Handled(p.ctrl, e).current == Some(e.next))
      && (!takes ==> Handled(p.ctrl, e) == p.ctrl)
  {
    EveryRunIsOrderly(workerId, interval, events);
    var p := Run(workerId, interval, events);
    assert Chain(p.taken) && p.ctrl.current == Latest(p.taken);
    TransitionExactly(p.taken, e.next);
    AnswerFollows(p.ctrl, e);
    hide Run, Chain, Transition, Orderly, Answer, Handled;
  }

  /** The answer and the effect of an assignment follow from whether it may take over. */
  lemma AnswerFollows(c: Controller, e: Event)
    requires c.interval > 0 && e.Assign? && !c.halted
    ensures match Transition(c.current, e.next)
      case Duplicate => Answer(c, e) == AlreadyApplied && Handled(c, e) == c
      case Refuse(reason) => Answer(c, e) == Reply.Refused(reason) && Handled(c, e) == c
      case Replace =>
        && Answer(c, e) != AlreadyApplied && !Answer(c, e).Refused?
        && (Answer(c, e) == Applied ==> Handled(c, e).current == Some(e.next))
  {
    hide Transition, Drained, NextMetricBoundary;
    DrainHalts(c, e.now, e.content);
    DrainAnswers(c, e.now, e.content);
    DrainKeepsIdentity(c, e.now, e.content);
  }

  lemma DrainAnswers(c: Controller, now: Time, content: Snapshot)
    ensures Drained(c, now, content).1 in {Applied, Overdue, FlushFailed}
  {
    hide NewMetricsDelta;
  }

  /** Once a controller has ended, nothing that reaches it is reported any more. */
  lemma {:induction false} NothingAfterTheEnd(c: Controller, events: seq<Event>)
    requires c.interval > 0 && c.halted
    ensures var after := Later(c, events); after.halted && ReportsNothing(c, after) && after.current == c.current
    decreases |events|
  {
    hide Handled;
    if events == [] {
    } else {
      var init := events[..|events| - 1];
      NothingAfterTheEnd(c, init);
      HaltedIgnores(Later(c, init), events[|events| - 1]);
    }
  }

  function Later(c: Controller, events: seq<Event>): (after: Controller)
    requires c.interval > 0
    ensures after.interval == c.interval
    decreases |events|
  {
    if events == [] then c
    else
      var before := Later(c, events[..|events| - 1]);
      HandledKeepsIdentity(before, events[|events| - 1]);
      Handled(before, events[|events| - 1])
  }
}
