/** One worker inside a fleet: what its controller may have emitted, and that every
    action of the worker keeps it so. */
module FleetNode {
  import opened Wire
  import opened CountMaps
  import opened Assignments
  import opened Aggregation
  import opened RunControl
  import opened Deltas
  import opened Snapshots

  /** The orchestrator side a worker depends on: the clock, the run and every recorded revision. */
  datatype Env = Env(
    clock: Time,
    runId: string,
    target: HttpTarget,
    revision: nat,
    startsAt: Time,
    deadline: Time,
    assignments: map<nat, map<string, Window>>)

  /** Revisions are recorded without gaps, all over the same run window. */
  ghost predicate EnvOk(env: Env) {
    && env.clock >= 0
    && Trim(env.runId) != ""
    && (forall r: nat :: r in env.assignments <==> 1 <= r <= env.revision)
    && (env.revision > 0 ==>
          0 <= env.startsAt < env.deadline <= MAX_TIMESTAMP && env.deadline - env.startsAt <= MAX_I64)
    && (forall r: nat, w :: r in env.assignments && w in env.assignments[r] ==>
          env.assignments[r][w] == Window(r, env.startsAt, env.deadline, env.assignments[r][w].active))
  }

  /** Time passes and revisions are added; what was there stays. */
  ghost predicate Extends(env: Env, next: Env) {
    && env.clock <= next.clock
    && env.runId == next.runId && env.target == next.target
    && env.revision <= next.revision
    && (env.revision > 0 ==> env.startsAt == next.startsAt && env.deadline == next.deadline)
    && (forall r :: r in env.assignments ==> r in next.assignments && next.assignments[r] == env.assignments[r])
  }

  // ----- Emitted deltas ---------------------------------------------------------------------

  /** One emitted delta by itself, as the i-th of its worker. */
  ghost predicate DeltaOk(env: Env, w: string, d: MetricsDelta, i: nat) {
    && d.workerId == w && d.runId == env.runId && d.sequence == i + 1
    && d.revision in env.assignments && w in env.assignments[d.revision]
    && d.intervalStart.Some? && d.intervalEnd.Some?
    && var start, end := d.intervalStart.value, d.intervalEnd.value;
      && env.startsAt <= start < end <= env.deadline
      && end <= start + SECOND
      && (d.finalForRevision ==> end == env.deadline || d.revision < env.revision)
      && (!d.finalForRevision ==> end < env.deadline && (end - env.startsAt) % SECOND == 0)
      && (!d.finalForRevision || end == env.deadline ==> NoBoundaryInside(env.startsAt, SECOND, start, end))
      && SnapshotProblem(d) == None
  }

  /** Consecutive emitted deltas of one worker. */
  ghost predicate Continues(env: Env, w: string, d: MetricsDelta, e: MetricsDelta) {
    && AsTime(d.intervalEnd) <= AsTime(e.intervalStart)
    && d.revision <= e.revision
    && (d.finalForRevision ==> d.revision < e.revision)
    && (AsTime(d.intervalEnd) == AsTime(e.intervalStart) || IdleBetween(env.assignments, w, d.revision, e.revision))
  }

  ghost predicate EmittedOk(env: Env, w: string, emitted: seq<MetricsDelta>) {
    && (forall i :: 0 <= i < |emitted| ==> DeltaOk(env, w, emitted[i], i))
    && (forall i :: 0 < i < |emitted| ==> Continues(env, w, emitted[i - 1], emitted[i]))
  }

  lemma IdleExtends(env: Env, next: Env, w: string, low: nat, high: nat, higher: nat)
    requires Extends(env, next) && IdleBetween(env.assignments, w, low, high) && high <= higher
    ensures IdleBetween(next.assignments, w, low, higher)
  {
    var r: nat :| low <= r <= high && r in env.assignments && !ActiveIn(env.assignments, w, r);
    assert r in next.assignments && !ActiveIn(next.assignments, w, r);
  }

  lemma EmittedExtends(env: Env, next: Env, w: string, emitted: seq<MetricsDelta>)
    requires EnvOk(env) && EnvOk(next) && Extends(env, next) && EmittedOk(env, w, emitted)
    ensures EmittedOk(next, w, emitted)
  {
    hide SnapshotProblem;
    forall i | 0 < i < |emitted| ensures Continues(next, w, emitted[i - 1], emitted[i]) {
      var d, e := emitted[i - 1], emitted[i];
      assert Continues(env, w, d, e);
      if IdleBetween(env.assignments, w, d.revision, e.revision) {
        IdleExtends(env, next, w, d.revision, e.revision, e.revision);
      }
    }
    forall i | 0 <= i < |emitted| ensures DeltaOk(next, w, emitted[i], i) {
      assert DeltaOk(env, w, emitted[i], i);
      assert env.revision > 0;
    }
  }

  /** Every delta takes at least a nanosecond of the window, so few enough are emitted. */
  lemma {:induction false} EmittedAreFew(env: Env, w: string, emitted: seq<MetricsDelta>)
    requires EnvOk(env) && EmittedOk(env, w, emitted) && emitted != []
    ensures |emitted| <= AsTime(emitted[|emitted| - 1].intervalEnd) - env.startsAt <= MAX_I64
    decreases |emitted|
  {
    hide SnapshotProblem, IdleBetween;
    var n := |emitted| - 1;
    assert DeltaOk(env, w, emitted[n], n);
    if n == 0 {
    } else {
      assert EmittedOk(env, w, emitted[..n]);
      EmittedAreFew(env, w, emitted[..n]);
      assert Continues(env, w, emitted[n - 1], emitted[n]);
    }
  }

  lemma EmittedAppend(env: Env, w: string, emitted: seq<MetricsDelta>, d: MetricsDelta)
    requires EmittedOk(env, w, emitted) && DeltaOk(env, w, d, |emitted|)
    requires emitted != [] ==> Continues(env, w, emitted[|emitted| - 1], d)
    ensures EmittedOk(env, w, emitted + [d])
  {
    hide DeltaOk, Continues;
    var next := emitted + [d];
    forall i | 0 < i < |next| ensures Continues(env, w, next[i - 1], next[i]) {
      assert i < |emitted| ==> next[i - 1] == emitted[i - 1] && next[i] == emitted[i];
    }
  }

  // ----- Assignments and the controller -----------------------------------------------------

  /** The coordinator issued this assignment to the worker and recorded it. */
  ghost predicate IssuedTo(env: Env, w: string, a: LoadAssignment) {
    && a.revision in env.assignments && w in env.assignments[a.revision]
    && a.runId == env.runId && a.target == Some(env.target)
    && a.startsAt == Some(env.startsAt) && a.deadline == Some(env.deadline)
    && a.load.Some? && IsActive(a.load) == env.assignments[a.revision][w].active
    && Problem(a) == None
  }

  /** How the last emitted delta relates to the revision now being worked on. */
  ghost predicate LastEmitted(env: Env, c: Controller) {
    c.outbound != [] ==>
      && c.current.Some? && c.hasCollector
      && var last := c.outbound[|c.outbound| - 1];
        last.revision <= c.current.value.revision && AsTime(last.intervalEnd) <= env.clock
  }

  /** A worker under load with its next boundary ahead: the open interval starts where
      the last one ended, or after an idle revision, and is at most a second long. */
  ghost predicate Collecting(env: Env, w: string, c: Controller)
    requires c.current.Some?
  {
    && env.startsAt <= c.intervalStart < c.timerAt <= env.deadline
    && c.timerAt <= c.intervalStart + SECOND
    && (c.timerAt == env.deadline || (c.timerAt - env.startsAt) % SECOND == 0)
    && (c.intervalStart == env.startsAt || c.intervalStart <= env.clock)
    && NoBoundaryInside(env.startsAt, SECOND, c.intervalStart, c.timerAt)
    && (c.outbound != [] ==>
          var last, revision := c.outbound[|c.outbound| - 1], c.current.value.revision;
          && AsTime(last.intervalEnd) <= c.intervalStart
          && (last.finalForRevision ==> last.revision < revision)
          && (AsTime(last.intervalEnd) == c.intervalStart
              || IdleBetween(env.assignments, w, last.revision, revision)))
  }

  /** A worker under load past its deadline step: the last delta closed its revision there. */
  ghost predicate Finished(env: Env, c: Controller)
    requires c.current.Some?
  {
    && env.clock >= env.deadline
    && c.outbound != []
    && var last := c.outbound[|c.outbound| - 1];
      last.finalForRevision && last.revision == c.current.value.revision && AsTime(last.intervalEnd) == env.deadline
  }

  ghost predicate ControllerOk(env: Env, w: string, c: Controller) {
    && c.workerId == w && c.interval == SECOND && c.sequence == |c.outbound|
    && LastEmitted(env, c)
    && (c.current.None? ==> !c.hasCollector && !c.timerArmed)
    && (c.current.Some? ==>
          && IssuedTo(env, w, c.current.value)
          && (Reports(c) && c.timerArmed ==> Collecting(env, w, c))
          && (Reports(c) && !c.timerArmed ==> Finished(env, c))
          && (!Reports(c) && c.timerArmed ==> c.timerAt == env.deadline)
          && (IsActive(c.current.value.load) && !c.hasCollector ==> env.clock >= env.deadline))
  }

  /** A worker: assignments on their way to it, its controller, how many of its deltas
      have been delivered, the last revision that does not include it, when it applied its first
      assignment, and what was collected in the interval of each delta it emitted. */
  datatype Node = Node(
    inbox: seq<LoadAssignment>,
    ctrl: Controller,
    delivered: nat,
    joined: nat,
    started: Option<Time>,
    flushed: seq<Interval>)

  function NewNode(w: string, joined: nat): Node {
    Node([], NewController(w, SECOND), 0, joined, None, [])
  }

  /** The intervals with the current one added if it was reported. */
  function Flushed(flushed: seq<Interval>, before: Controller, after: Controller, interval: Interval): seq<Interval> {
    if |after.outbound| > |before.outbound| then flushed + [interval] else flushed
  }

  function AppliedRevision(n: Node): nat {
    if n.ctrl.current.Some? then n.ctrl.current.value.revision else n.joined
  }

  /** The inbox holds exactly the revisions issued since the last applied one. A worker that
      joined while a revision was being made has to wait for the one after it. */
  ghost predicate InboxOk(env: Env, w: string, n: Node) {
    && |n.inbox| == Max(env.revision - AppliedRevision(n), 0)
    && forall i :: 0 <= i < |n.inbox| ==>
        n.inbox[i].revision == AppliedRevision(n) + 1 + i && IssuedTo(env, w, n.inbox[i])
  }

  ghost predicate NodeOk(env: Env, w: string, n: Node) {
    && Trim(w) != ""
    && EmittedOk(env, w, n.ctrl.outbound)
    && ControllerOk(env, w, n.ctrl)
    && (!n.ctrl.halted ==> InboxOk(env, w, n))
    && n.delivered <= |n.ctrl.outbound|
    && n.joined <= env.revision + 1
    && (n.ctrl.current.Some? ==> n.joined < n.ctrl.current.value.revision)
    && (n.joined < env.revision ==> env.revision in env.assignments && w in env.assignments[env.revision])
  }

  // ----- Other parties' steps --------------------------------------------------------------

  lemma IssuedExtends(env: Env, next: Env, w: string, a: LoadAssignment)
    requires EnvOk(env) && Extends(env, next) && IssuedTo(env, w, a)
    ensures IssuedTo(next, w, a)
  {
    hide Problem;
    assert env.revision > 0;
  }

  lemma ControllerExtends(env: Env, next: Env, w: string, c: Controller)
    requires EnvOk(env) && EnvOk(next) && Extends(env, next) && ControllerOk(env, w, c)
    ensures ControllerOk(next, w, c)
  {
    hide IssuedTo, IdleBetween;
    if c.current.Some? {
      IssuedExtends(env, next, w, c.current.value);
      assert env.revision > 0 by { IssuedMeansRevision(env, w, c.current.value); }
      if Reports(c) && c.timerArmed && c.outbound != [] {
        var last, revision := c.outbound[|c.outbound| - 1], c.current.value.revision;
        if IdleBetween(env.assignments, w, last.revision, revision) {
          IdleExtends(env, next, w, last.revision, revision, revision);
        }
      }
    }
  }

  lemma IssuedMeansRevision(env: Env, w: string, a: LoadAssignment)
    requires EnvOk(env) && IssuedTo(env, w, a)
    ensures 1 <= a.revision <= env.revision
  {
  }

  /** Time passing keeps a worker as it is. */
  lemma NodeWaits(env: Env, next: Env, w: string, n: Node)
    requires EnvOk(env) && EnvOk(next) && Extends(env, next) && next.revision == env.revision
    requires NodeOk(env, w, n)
    ensures NodeOk(next, w, n)
  {
    EmittedExtends(env, next, w, n.ctrl.outbound);
    ControllerExtends(env, next, w, n.ctrl);
    hide EmittedOk, ControllerOk, IssuedTo;
    forall i | !n.ctrl.halted && 0 <= i < |n.inbox| ensures IssuedTo(next, w, n.inbox[i]) {
      IssuedExtends(env, next, w, n.inbox[i]);
    }
  }

  /** A new revision reaches the worker's inbox. */
  lemma NodeReceives(env: Env, next: Env, w: string, n: Node, a: LoadAssignment)
    requires EnvOk(env) && EnvOk(next) && Extends(env, next) && next.revision == env.revision + 1
    requires NodeOk(env, w, n) && n.joined <= env.revision && IssuedTo(next, w, a) && a.revision == next.revision
    ensures NodeOk(next, w, n.(inbox := n.inbox + [a]))
  {
    assert w in next.assignments[next.revision];
    EmittedExtends(env, next, w, n.ctrl.outbound);
    ControllerExtends(env, next, w, n.ctrl);
    hide EmittedOk, ControllerOk, IssuedTo;
    var inbox := n.inbox + [a];
    forall i | !n.ctrl.halted && 0 <= i < |inbox|
      ensures inbox[i].revision == AppliedRevision(n) + 1 + i && IssuedTo(next, w, inbox[i])
    {
      if i < |n.inbox| {
        IssuedExtends(env, next, w, n.inbox[i]);
      }
    }
  }

  /** A new revision that does not include the worker. */
  lemma NodeLeftOut(env: Env, next: Env, w: string, n: Node)
    requires EnvOk(env) && EnvOk(next) && Extends(env, next) && next.revision == env.revision + 1
    requires NodeOk(env, w, n) && n.joined == env.revision + 1
    ensures NodeOk(next, w, n)
  {
    EmittedExtends(env, next, w, n.ctrl.outbound);
    ControllerExtends(env, next, w, n.ctrl);
    NothingApplied(env, w, n);
    hide EmittedOk, ControllerOk, IssuedTo;
  }

  lemma NothingApplied(env: Env, w: string, n: Node)
    requires EnvOk(env) && NodeOk(env, w, n) && n.joined >= env.revision
    ensures n.ctrl.current.None? && AppliedRevision(n) == n.joined
  {
    hide EmittedOk, InboxOk, Problem;
    if n.ctrl.current.Some? {
      IssuedMeansRevision(env, w, n.ctrl.current.value);
    }
  }

  // ----- The worker's own steps ------------------------------------------------------------

  /** What the open interval owes to the last emitted delta before it may be flushed. */
  ghost predicate MayContinue(env: Env, w: string, emitted: seq<MetricsDelta>, start: Time, revision: nat) {
    emitted != [] ==>
      var last := emitted[|emitted| - 1];
      && AsTime(last.intervalEnd) <= start
      && last.revision <= revision
      && (last.finalForRevision ==> last.revision < revision)
      && (AsTime(last.intervalEnd) == start || IdleBetween(env.assignments, w, last.revision, revision))
  }

  /** Hypotheses on what is collected in one interval: HTTP client results, and fewer
      samples than a 64-bit counter can count. */
  ghost predicate Typical(interval: Interval) {
    ClientResults(interval.samples) && |interval.samples| <= MAX_U64
  }

  /** A flush inside the run window always builds its delta, and the delta fits the history. */
  lemma FlushEmits(env: Env, w: string, c: Controller, a: LoadAssignment, end: Time, interval: Interval, final: bool)
    requires EnvOk(env) && EmittedOk(env, w, c.outbound) && Trim(w) != "" && !c.halted
    requires c.workerId == w && c.sequence == |c.outbound| && IssuedTo(env, w, a) && Typical(interval)
    requires env.startsAt <= c.intervalStart < end <= env.deadline && end <= c.intervalStart + SECOND
    requires final ==> end == env.deadline || a.revision < env.revision
    requires !final ==> end < env.deadline && (end - env.startsAt) % SECOND == 0
    requires !final || end == env.deadline ==> NoBoundaryInside(env.startsAt, SECOND, c.intervalStart, end)
    requires MayContinue(env, w, c.outbound, c.intervalStart, a.revision)
    ensures var f := Flush(c, a, end, ContentOf(interval), final);
      && |f.outbound| == |c.outbound| + 1 && f.outbound[..|c.outbound|] == c.outbound
      && f == c.(outbound := f.outbound, sequence := |f.outbound|)
      && EmittedOk(env, w, f.outbound)
      && var d := f.outbound[|c.outbound|];
        d.revision == a.revision && AsTime(d.intervalEnd) == end && d.finalForRevision == final
  {
    var content := ContentOf(interval);
    hide SnapshotProblem, ContentOf, Problem, IdleBetween, DeltaOk, Continues, EmittedOk, Trim;
    FewerThanCounter(env, w, c.outbound);
    forall code | code in content.counters.statusCodes ensures MIN_I32 <= code <= MAX_I32 {
      ClientStatusesFit(interval, code);
    }
    var sequence := |c.outbound| + 1;
    IssuedMeansRevision(env, w, a);
    var delta := NewMetricsDelta(w, a.runId, a.revision, sequence, c.intervalStart, end, content, final);
    assert delta.Some?;
    ClientResultsReportable(interval, delta.value);
    NewDeltaOk(env, w, c, a, end, delta.value, final);
    NewDeltaContinues(env, w, c, delta.value);
    EmittedAppend(env, w, c.outbound, delta.value);
  }

  lemma FewerThanCounter(env: Env, w: string, emitted: seq<MetricsDelta>)
    requires EnvOk(env) && EmittedOk(env, w, emitted)
    ensures |emitted| + 1 < TWO_64
  {
    if emitted != [] {
      EmittedAreFew(env, w, emitted);
    }
  }

  lemma NewDeltaOk(env: Env, w: string, c: Controller, a: LoadAssignment, end: Time, d: MetricsDelta, final: bool)
    requires IssuedTo(env, w, a) && SnapshotProblem(d) == None
    requires d.workerId == w && d.runId == a.runId && d.revision == a.revision && d.sequence == |c.outbound| + 1
    requires d.intervalStart == Some(c.intervalStart) && d.intervalEnd == Some(end) && d.finalForRevision == final
    requires env.startsAt <= c.intervalStart < end <= env.deadline && end <= c.intervalStart + SECOND
    requires final ==> end == env.deadline || a.revision < env.revision
    requires !final ==> end < env.deadline && (end - env.startsAt) % SECOND == 0
    requires !final || end == env.deadline ==> NoBoundaryInside(env.startsAt, SECOND, c.intervalStart, end)
    ensures DeltaOk(env, w, d, |c.outbound|)
  {
    hide SnapshotProblem, Problem;
  }

  lemma NewDeltaContinues(env: Env, w: string, c: Controller, d: MetricsDelta)
    requires d.intervalStart == Some(c.intervalStart)
    requires MayContinue(env, w, c.outbound, c.intervalStart, d.revision)
    ensures c.outbound != [] ==> Continues(env, w, c.outbound[|c.outbound| - 1], d)
  {
  }

  /** What draining leaves for the next revision. */
  ghost predicate ReadyFor(env: Env, w: string, c: Controller, drained: Controller, revision: nat) {
    && drained == c.(scheduling := drained.scheduling, outbound := drained.outbound, sequence := |drained.outbound|)
    && EmittedOk(env, w, drained.outbound)
    && |c.outbound| <= |drained.outbound| <= |c.outbound| + 1 && drained.outbound[..|c.outbound|] == c.outbound
    && (drained.outbound != [] ==>
          && c.hasCollector
          && AsTime(drained.outbound[|drained.outbound| - 1].intervalEnd) <= env.clock)
    && MayContinue(env, w, drained.outbound, Max(env.clock, env.startsAt), revision)
  }

  /** Draining an idle worker emits nothing. */
  lemma DrainIdle(env: Env, next: Env, w: string, c: Controller, later: nat, interval: Interval)
    requires EnvOk(env) && EnvOk(next) && Extends(env, next) && !c.halted && !Reports(c)
    requires EmittedOk(env, w, c.outbound) && ControllerOk(env, w, c)
    requires c.current.Some? ==> next.clock < env.deadline && c.current.value.revision < later
    ensures var (drained, reply) := Drained(c, next.clock, ContentOf(interval));
      !drained.halted && reply == Applied && ReadyFor(next, w, c, drained, later)
  {
    hide EmittedOk, ControllerOk, EnvOk, Extends, Problem, SnapshotProblem, Flush, ContentOf, IdleBetween, IssuedTo;
    EmittedExtends(env, next, w, c.outbound);
    IdleContinues(env, next, w, c, later);
    assert c.outbound[..|c.outbound|] == c.outbound;
  }

  /** An idle worker may go on anywhere after what it reported last. */
  lemma IdleContinues(env: Env, next: Env, w: string, c: Controller, later: nat)
    requires EnvOk(env) && EnvOk(next) && Extends(env, next) && ControllerOk(env, w, c) && !Reports(c)
    requires c.current.Some? ==> next.clock < env.deadline && c.current.value.revision < later
    ensures c.sequence == |c.outbound|
    ensures c.outbound != [] ==> c.hasCollector && AsTime(c.outbound[|c.outbound| - 1].intervalEnd) <= next.clock
    ensures MayContinue(next, w, c.outbound, Max(next.clock, next.startsAt), later)
  {
    hide Problem, Trim;
    if c.outbound != [] {
      var last, current := c.outbound[|c.outbound| - 1], c.current.value;
      IssuedMeansRevision(env, w, current);
      assert !ActiveIn(next.assignments, w, current.revision);
      assert IdleBetween(next.assignments, w, last.revision, later);
    }
  }

  /** What a worker under load before its deadline looks like. */
  lemma UnderLoad(env: Env, next: Env, w: string, c: Controller)
    requires EnvOk(env) && Extends(env, next) && ControllerOk(env, w, c) && Reports(c) && next.clock < env.deadline
    ensures IssuedTo(env, w, c.current.value) && AsTime(c.current.value.deadline) == env.deadline
    ensures c.timerArmed && Collecting(env, w, c) && LastEmitted(env, c)
    ensures c.interval == SECOND && c.workerId == w && c.sequence == |c.outbound|
    ensures env.startsAt == next.startsAt && env.deadline == next.deadline
    ensures env.startsAt <= c.intervalStart && (c.intervalStart == env.startsAt || c.intervalStart <= next.clock)
    ensures c.outbound != [] ==> AsTime(c.outbound[|c.outbound| - 1].intervalEnd) <= next.clock
  {
    IssuedMeansRevision(env, w, c.current.value);
    hide Problem, IdleBetween;
  }

  /** Draining a worker under load closes its revision at the drained time, unless the
      open interval became too long. */
  lemma DrainActive(env: Env, next: Env, w: string, c: Controller, later: nat, interval: Interval)
    requires EnvOk(env) && EnvOk(next) && Extends(env, next) && !c.halted && Reports(c) && Trim(w) != ""
    requires EmittedOk(env, w, c.outbound) && ControllerOk(env, w, c)
    requires c.current.value.revision < later <= next.revision
    requires next.clock < env.deadline && Typical(interval)
    ensures var (drained, reply) := Drained(c, next.clock, ContentOf(interval));
      && (drained.halted ==> reply == Overdue && drained == c.(scheduling := false, halted := true))
      && (!drained.halted ==> reply == Applied && ReadyFor(next, w, c, drained, later))
  {
    hide EmittedOk, IssuedTo, Flush, ContentOf, Typical, MayContinue, EnvOk, ControllerOk, Collecting, LastEmitted, Extends;
    var now, a := next.clock, c.current.value;
    UnderLoad(env, next, w, c);
    EmittedExtends(env, next, w, c.outbound);
    IssuedExtends(env, next, w, a);
    LastMayContinue(env, next, w, c, later);
    assert c.outbound[..|c.outbound|] == c.outbound;
    if now > c.intervalStart {
      if Sub(now, c.intervalStart) <= SECOND {
        DrainCloses(next, w, c, a, later, interval);
      }
    } else {
      assert Max(now, env.startsAt) == c.intervalStart;
    }
  }

  lemma DrainCloses(env: Env, w: string, c: Controller, a: LoadAssignment, later: nat, interval: Interval)
    requires EnvOk(env) && EmittedOk(env, w, c.outbound) && Trim(w) != "" && !c.halted && c.hasCollector
    requires c.workerId == w && c.sequence == |c.outbound| && IssuedTo(env, w, a) && Typical(interval)
    requires env.startsAt <= c.intervalStart < env.clock < env.deadline && env.clock <= c.intervalStart + SECOND
    requires MayContinue(env, w, c.outbound, c.intervalStart, a.revision) && a.revision < later <= env.revision
    ensures var flushed := Flush(c.(scheduling := false), a, env.clock, ContentOf(interval), true);
      !flushed.halted && ReadyFor(env, w, c, flushed, later)
  {
    hide EmittedOk, IssuedTo, Flush, ContentOf, Typical, MayContinue, EnvOk;
    var stopped := c.(scheduling := false);
    FlushEmits(env, w, stopped, a, env.clock, interval, true);
    JustFlushed(env, w, Flush(stopped, a, env.clock, ContentOf(interval), true).outbound, a.revision, env.clock, later);
  }

  /** A revision closed at the drained time is continued there by any later one. */
  lemma JustFlushed(env: Env, w: string, emitted: seq<MetricsDelta>, revision: nat, end: Time, later: nat)
    requires emitted != [] && end >= env.startsAt && revision < later
    requires var d := emitted[|emitted| - 1]; d.revision == revision && AsTime(d.intervalEnd) == end
    ensures MayContinue(env, w, emitted, Max(end, env.startsAt), later)
  {
  }

  /** The open interval of a collecting worker may be flushed for its own revision or a later one. */
  lemma LastMayContinue(env: Env, next: Env, w: string, c: Controller, later: nat)
    requires Extends(env, next) && c.current.Some? && c.current.value.revision < later
    requires Collecting(env, w, c) && LastEmitted(env, c)
    ensures MayContinue(next, w, c.outbound, c.intervalStart, c.current.value.revision)
    ensures MayContinue(next, w, c.outbound, c.intervalStart, later)
  {
    if c.outbound != [] {
      var last, revision := c.outbound[|c.outbound| - 1], c.current.value.revision;
      if IdleBetween(env.assignments, w, last.revision, revision) {
        IdleExtends(env, next, w, last.revision, revision, revision);
        IdleExtends(env, next, w, last.revision, revision, later);
      }
    }
  }

  /** Installing the next assignment after a clean drain. */
  lemma InstallKeeps(env: Env, w: string, c: Controller, drained: Controller, a: LoadAssignment)
    requires EnvOk(env) && IssuedTo(env, w, a) && ReadyFor(env, w, c, drained, a.revision)
    requires drained.workerId == w && drained.interval == SECOND
    requires c.current.None? ==> c.outbound == [] && drained.outbound == [] && !c.hasCollector
    requires c.current.Some? ==> env.clock < env.deadline
    ensures var (next, reply) := Installed(drained, a, env.clock, true);
      && reply == Applied && next.current == Some(a) && next.outbound == drained.outbound && next.halted == drained.halted
      && ControllerOk(env, w, next)
  {
    hide EmittedOk, Problem, IdleBetween, NextMetricBoundary;
    assert env.revision > 0 by { IssuedMeansRevision(env, w, a); }
    if env.clock < env.deadline {
      BoundaryIsNext(env.startsAt, env.clock, env.deadline, SECOND);
    }
    if drained.outbound != [] {
      assert drained.outbound[|drained.outbound| - 1].revision <= a.revision;
    }
  }

  /** The next revision in a worker's inbox is always a valid replacement. */
  lemma NextIsReplacement(env: Env, w: string, n: Node)
    requires NodeOk(env, w, n) && !n.ctrl.halted && n.inbox != []
    ensures Transition(n.ctrl.current, n.inbox[0]) == Replace
    ensures IssuedTo(env, w, n.inbox[0]) && n.inbox[0].revision == AppliedRevision(n) + 1 <= env.revision
  {
    hide EmittedOk, Problem;
  }

  /** The worker after taking one assignment from its inbox. */
  function NodeApplied(n: Node, now: Time, interval: Interval): (Node, Reply)
    requires n.inbox != [] && n.ctrl.interval > 0
  {
    var (ctrl, reply) := Apply(n.ctrl, n.inbox[0], now, ContentOf(interval), true);
    (n.(inbox := n.inbox[1..], ctrl := ctrl,
        started := if n.started.None? then Some(now) else n.started,
        flushed := Flushed(n.flushed, n.ctrl, ctrl, interval)), reply)
  }

  /** The worker after its timer fired. */
  function NodeFired(n: Node, interval: Interval): Node
    requires n.ctrl.interval > 0
  {
    var ctrl := Fired(n.ctrl, ContentOf(interval));
    n.(ctrl := ctrl, flushed := Flushed(n.flushed, n.ctrl, ctrl, interval))
  }

  /** Applying an assignment before the deadline keeps the worker as it should be; the
      only other outcome is a controller that stops on an overdue interval. */
  lemma ApplyKeepsNode(env: Env, next: Env, w: string, n: Node, interval: Interval)
    requires EnvOk(env) && EnvOk(next) && Extends(env, next) && next.revision == env.revision
    requires NodeOk(env, w, n) && !n.ctrl.halted && n.inbox != [] && Typical(interval)
    requires n.ctrl.current.Some? ==> next.clock < env.deadline
    ensures var (after, reply) := NodeApplied(n, next.clock, interval);
      && NodeOk(next, w, after)
      && (reply == Applied || (reply == Overdue && after.ctrl.halted))
      && |n.ctrl.outbound| <= |after.ctrl.outbound| && after.ctrl.outbound[..|n.ctrl.outbound|] == n.ctrl.outbound
  {
    NodeFacts(env, w, n);
    NextIsReplacement(env, w, n);
    ApplyIs(n.ctrl, n.inbox[0], next.clock, ContentOf(interval));
    hide EnvOk, EmittedOk, ControllerOk, InboxOk, IssuedTo, ContentOf, Drained, Installed, RunControl.Apply, Extends, Transition,
      Typical, Trim, ReadyFor, Problem;
    var c, a := n.ctrl, n.inbox[0];
    var (drained, reply) := Drained(c, next.clock, ContentOf(interval));
    if Reports(c) {
      DrainActive(env, next, w, c, a.revision, interval);
    } else {
      DrainIdle(env, next, w, c, a.revision, interval);
    }
    if drained.halted {
      OverdueKeepsNode(env, next, w, n, drained);
    } else {
      IssuedExtends(env, next, w, a);
      ReadyShape(next, w, c, drained, a.revision);
      SameDeadline(env, next, w, n);
      InstallKeeps(next, w, c, drained, a);
      InstalledKeepsNode(env, next, w, n, drained);
    }
  }

  /** What a worker's node says about its controller. */
  lemma NodeFacts(env: Env, w: string, n: Node)
    requires NodeOk(env, w, n)
    ensures Trim(w) != "" && EmittedOk(env, w, n.ctrl.outbound) && ControllerOk(env, w, n.ctrl)
    ensures n.ctrl.interval == SECOND && n.ctrl.workerId == w
    ensures n.ctrl.current.None? ==> n.ctrl.outbound == [] && !n.ctrl.hasCollector
    ensures n.ctrl.current.Some? ==> n.ctrl.current.value.revision == AppliedRevision(n)
  {
    hide EmittedOk, IssuedTo, Collecting, Finished, Trim;
  }

  /** A replacement that is not refused drains first, and installs unless that failed. */
  lemma ApplyIs(c: Controller, a: LoadAssignment, now: Time, content: Snapshot)
    requires c.interval > 0 && !c.halted && Transition(c.current, a) == Replace
    ensures var (drained, reply) := Drained(c, now, content);
      && drained.interval == c.interval
      && RunControl.Apply(c, a, now, content, true)
         == if drained.halted then (drained, reply) else Installed(drained, a, now, true)
  {
    hide Transition, NewMetricsDelta, NextMetricBoundary;
  }

  lemma ReadyShape(env: Env, w: string, c: Controller, drained: Controller, revision: nat)
    requires ReadyFor(env, w, c, drained, revision)
    ensures drained.workerId == c.workerId && drained.interval == c.interval && drained.halted == c.halted
    ensures !c.hasCollector ==> drained.outbound == []
    ensures |drained.outbound| >= |c.outbound| && drained.outbound[..|c.outbound|] == c.outbound
  {
    hide EmittedOk, MayContinue;
  }

  lemma SameDeadline(env: Env, next: Env, w: string, n: Node)
    requires EnvOk(env) && Extends(env, next) && NodeOk(env, w, n)
    ensures n.ctrl.current.Some? ==> next.deadline == env.deadline
  {
    hide EmittedOk, Problem, InboxOk;
    if n.ctrl.current.Some? {
      IssuedMeansRevision(env, w, n.ctrl.current.value);
    }
  }

  lemma OverdueKeepsNode(env: Env, next: Env, w: string, n: Node, drained: Controller)
    requires EnvOk(env) && EnvOk(next) && Extends(env, next) && next.revision == env.revision
    requires NodeOk(env, w, n) && n.inbox != []
    requires drained == n.ctrl.(scheduling := false, halted := true)
    ensures NodeOk(next, w, n.(inbox := n.inbox[1..], ctrl := drained))
    ensures drained.outbound[..|n.ctrl.outbound|] == n.ctrl.outbound
  {
    EmittedExtends(env, next, w, n.ctrl.outbound);
    ControllerExtends(env, next, w, n.ctrl);
    StoppedControllerOk(next, w, n.ctrl, drained);
    hide EmittedOk, IssuedTo, ControllerOk, Extends, EnvOk;
    assert AppliedRevision(n.(ctrl := drained)) == AppliedRevision(n);
  }

  /** Halting or losing the scheduler changes nothing the history depends on. */
  lemma StoppedControllerOk(env: Env, w: string, c: Controller, d: Controller)
    requires ControllerOk(env, w, c) && d == c.(scheduling := d.scheduling, halted := d.halted)
    ensures ControllerOk(env, w, d)
  {
    hide IssuedTo, IdleBetween;
  }

  lemma InstalledKeepsNode(env: Env, next: Env, w: string, n: Node, drained: Controller)
    requires EnvOk(env) && EnvOk(next) && Extends(env, next) && next.revision == env.revision
    requires NodeOk(env, w, n) && !n.ctrl.halted && n.inbox != [] && n.ctrl.interval > 0 && drained.interval > 0
    requires !drained.halted && ReadyFor(next, w, n.ctrl, drained, n.inbox[0].revision)
    requires var ctrl := Installed(drained, n.inbox[0], next.clock, true).0;
      && ControllerOk(next, w, ctrl) && ctrl.current == Some(n.inbox[0]) && ctrl.outbound == drained.outbound
      && !ctrl.halted
    ensures NodeOk(next, w, n.(inbox := n.inbox[1..], ctrl := Installed(drained, n.inbox[0], next.clock, true).0))
  {
    hide EmittedOk, ControllerOk, IssuedTo, Installed, MayContinue;
    forall i | 0 <= i < |n.inbox| ensures IssuedTo(next, w, n.inbox[i]) {
      IssuedExtends(env, next, w, n.inbox[i]);
    }
  }

  /** A timer firing at its boundary keeps the worker as it should be and never halts it. */
  lemma FireKeepsController(env: Env, w: string, c: Controller, interval: Interval)
    requires EnvOk(env) && EmittedOk(env, w, c.outbound) && ControllerOk(env, w, c) && Trim(w) != ""
    requires !c.halted && c.timerArmed && c.timerAt <= env.clock && Typical(interval)
    ensures var f := Fired(c, ContentOf(interval));
      && EmittedOk(env, w, f.outbound) && ControllerOk(env, w, f) && !f.halted && f.current == c.current
      && |c.outbound| <= |f.outbound| && f.outbound[..|c.outbound|] == c.outbound
  {
    ArmedFacts(env, w, c);
    hide EnvOk, EmittedOk, ControllerOk, IssuedTo, Collecting, LastEmitted, MayContinue, Typical, ContentOf, Fired, Trim;
    if Reports(c) {
      CollectingMayContinue(env, w, c);
      if c.timerAt == env.deadline {
        DeadlineFires(env, w, c, c.current.value, interval);
      } else {
        BoundaryFires(env, w, c, c.current.value, interval);
      }
    } else {
      IdleFires(env, w, c, ContentOf(interval));
    }
  }

  lemma ArmedFacts(env: Env, w: string, c: Controller)
    requires ControllerOk(env, w, c) && c.timerArmed
    ensures c.current.Some? && IssuedTo(env, w, c.current.value)
    ensures Reports(c) ==> Collecting(env, w, c) && LastEmitted(env, c) && c.timerAt <= env.deadline
  {
    hide IssuedTo, IdleBetween;
  }

  lemma IdleFires(env: Env, w: string, c: Controller, content: Snapshot)
    requires EnvOk(env) && ControllerOk(env, w, c)
    requires !c.halted && c.timerArmed && c.timerAt <= env.clock && !Reports(c)
    ensures var f := Fired(c, content);
      && ControllerOk(env, w, f) && !f.halted && f.current == c.current
      && f.outbound == c.outbound && f.outbound[..|c.outbound|] == c.outbound
  {
    IssuedMeansRevision(env, w, c.current.value);
    hide Problem, IdleBetween;
  }

  lemma CollectingMayContinue(env: Env, w: string, c: Controller)
    requires c.current.Some? && Collecting(env, w, c) && LastEmitted(env, c)
    ensures MayContinue(env, w, c.outbound, c.intervalStart, c.current.value.revision)
  {
  }

  lemma DeadlineFires(env: Env, w: string, c: Controller, a: LoadAssignment, interval: Interval)
    requires EnvOk(env) && EmittedOk(env, w, c.outbound) && ControllerOk(env, w, c) && Trim(w) != ""
    requires !c.halted && c.timerArmed && Reports(c) && c.current == Some(a) && Typical(interval)
    requires c.timerAt == env.deadline <= env.clock && Collecting(env, w, c) && IssuedTo(env, w, a)
    requires MayContinue(env, w, c.outbound, c.intervalStart, a.revision)
    ensures var f := Fired(c, ContentOf(interval));
      && EmittedOk(env, w, f.outbound) && ControllerOk(env, w, f) && !f.halted && f.current == c.current
      && |f.outbound| == |c.outbound| + 1 && f.outbound[..|c.outbound|] == c.outbound
  {
    hide EmittedOk, IssuedTo, Flush, ContentOf, Typical, MayContinue, EnvOk, IdleBetween, Trim;
    var stopped := c.(scheduling := false);
    ControllerFacts(env, w, c);
    IssuedWindow(env, w, a);
    FlushEmits(env, w, stopped, a, env.deadline, interval, true);
    var f := Fired(c, ContentOf(interval));
    assert f == Flush(stopped, a, env.deadline, ContentOf(interval), true).(timerArmed := false);
  }

  lemma IssuedWindow(env: Env, w: string, a: LoadAssignment)
    requires IssuedTo(env, w, a)
    ensures AsTime(a.startsAt) == env.startsAt && AsTime(a.deadline) == env.deadline
  {
  }

  lemma BoundaryFires(env: Env, w: string, c: Controller, a: LoadAssignment, interval: Interval)
    requires EnvOk(env) && EmittedOk(env, w, c.outbound) && ControllerOk(env, w, c) && Trim(w) != ""
    requires !c.halted && c.timerArmed && Reports(c) && c.current == Some(a) && Typical(interval)
    requires c.timerAt < env.deadline && c.timerAt <= env.clock && Collecting(env, w, c) && IssuedTo(env, w, a)
    requires MayContinue(env, w, c.outbound, c.intervalStart, a.revision)
    ensures var f := Fired(c, ContentOf(interval));
      && EmittedOk(env, w, f.outbound) && ControllerOk(env, w, f) && !f.halted && f.current == c.current
      && |f.outbound| == |c.outbound| + 1 && f.outbound[..|c.outbound|] == c.outbound
  {
    hide EmittedOk, IssuedTo, Flush, ContentOf, Typical, MayContinue, EnvOk, IdleBetween, NextMetricBoundary, Trim;
    WindowFacts(env, w, a);
    ControllerFacts(env, w, c);
    FlushEmits(env, w, c, a, c.timerAt, interval, false);
    BoundaryIsNext(env.startsAt, c.timerAt, env.deadline, SECOND);
    var f, g := Fired(c, ContentOf(interval)), Flush(c, a, c.timerAt, ContentOf(interval), false);
    assert f == g.(intervalStart := c.timerAt, timerAt := NextMetricBoundary(env.startsAt, c.timerAt, env.deadline, SECOND));
  }

  lemma WindowFacts(env: Env, w: string, a: LoadAssignment)
    requires EnvOk(env) && IssuedTo(env, w, a)
    ensures AsTime(a.startsAt) == env.startsAt && AsTime(a.deadline) == env.deadline
    ensures 0 <= env.startsAt < env.deadline && env.deadline - env.startsAt <= MAX_I64
  {
    hide Problem, Trim;
    IssuedMeansRevision(env, w, a);
  }

  lemma ControllerFacts(env: Env, w: string, c: Controller)
    requires ControllerOk(env, w, c)
    ensures c.workerId == w && c.interval == SECOND && c.sequence == |c.outbound|
  {
    hide IssuedTo, Collecting, Finished, LastEmitted;
  }

  lemma FireKeepsNode(env: Env, w: string, n: Node, interval: Interval)
    requires EnvOk(env) && NodeOk(env, w, n) && !n.ctrl.halted && n.ctrl.timerArmed && n.ctrl.interval > 0
    requires n.ctrl.timerAt <= env.clock && Typical(interval)
    ensures var f := NodeFired(n, interval).ctrl;
      && NodeOk(env, w, NodeFired(n, interval)) && !f.halted
      && |n.ctrl.outbound| <= |f.outbound| && f.outbound[..|n.ctrl.outbound|] == n.ctrl.outbound
  {
    FireKeepsController(env, w, n.ctrl, interval);
    hide EmittedOk, IssuedTo, ControllerOk, Fired, EnvOk, Flushed;
  }

  /** The scheduler ending, or the session being cancelled, keeps the history. */
  lemma StopKeepsNode(env: Env, w: string, n: Node, d: Controller)
    requires NodeOk(env, w, n) && d == n.ctrl.(scheduling := d.scheduling, halted := d.halted)
    requires n.ctrl.halted ==> d.halted
    ensures NodeOk(env, w, n.(ctrl := d))
  {
    StoppedControllerOk(env, w, n.ctrl, d);
    hide EmittedOk, IssuedTo, ControllerOk;
  }
}
