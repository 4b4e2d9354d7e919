/** The results about whole runs. */
module FleetTheorems {
  import opened Wire
  import opened Snapshots
  import opened Assignments
  import Coordination
  import opened Aggregation
  import opened AggregatorHistory
  import opened Coverage
  import opened RunControl
  import opened Deltas
  import opened FleetNode
  import opened FleetRuns
  import opened FleetDelivery

  // ----- A delivery keeps the invariant -----------------------------------------------------

  /** A commit for one worker leaves another's history and state alone. */
  lemma OtherUntouched(run: Run, w: string, d: MetricsDelta, v: string)
    requires Judge(run.agg, w, Some(d)).Granted? && v != w
    ensures var next := Step(run, Delivery(w, Some(d)));
      && History(next.log, v) == History(run.log, v)
      && (v in run.agg.workers ==> v in next.agg.workers && next.agg.workers[v] == run.agg.workers[v])
  {
    StepGranted(run, w, d);
    hide Judge, Step, History, Advanced, Add, Decoded;
    HistoryAppend(run.log, EntryOf(run, w, d), v);
    assert History(run.log, v) + [] == History(run.log, v);
  }

  lemma DeliverOther(env: Env, run: Run, w: string, d: MetricsDelta, v: string, n: Node)
    requires Judge(run.agg, w, Some(d)).Granted? && v != w && WorkerOk(env, run, v, n)
    ensures WorkerOk(env, Step(run, Delivery(w, Some(d))), v, n)
  {
    hide Judge, Step, NodeOk, History, Closes;
    OtherUntouched(run, w, d, v);
  }

  lemma DeliverOwnHistory(run: Run, w: string, n: Node, d: MetricsDelta)
    requires n.delivered < |n.ctrl.outbound| && d == n.ctrl.outbound[n.delivered]
    requires Judge(run.agg, w, Some(d)).Granted? && DeliveredOk(run, w, n)
    ensures DeliveredOk(Step(run, Delivery(w, Some(d))), w, n.(delivered := n.delivered + 1))
  {
    hide Judge, Step, History, Advanced, Add, Decoded, Committed;
    StepGranted(run, w, d);
    HistoryAppend(run.log, EntryOf(run, w, d), w);
    var h, next := History(run.log, w), Step(run, Delivery(w, Some(d)));
    assert History(next.log, w) == h + [EntryOf(run, w, d)];
  }

  lemma DeliverOwnFinish(env: Env, run: Run, w: string, n: Node, d: MetricsDelta)
    requires n.delivered < |n.ctrl.outbound| && d == n.ctrl.outbound[n.delivered]
    requires Judge(run.agg, w, Some(d)).Granted? && FinishCounted(env, run, w, n)
    requires EnvOk(env) && env.assignments == run.agg.assignments
    requires env.revision > 0 ==> env.revision in env.assignments && run.agg.latest == env.assignments[env.revision]
    ensures FinishCounted(env, Step(run, Delivery(w, Some(d))), w, n.(delivered := n.delivered + 1))
  {
    hide Judge, Step, Add, Decoded, Closes, EnvOk;
    StepGranted(run, w, d);
    var next := Step(run, Delivery(w, Some(d)));
    assert next.agg.workers[w] == Advanced(run.agg, w, d);
    hide Committed;
    if Closes(env, w, d) {
      ClosingFinishes(env, run, w, d);
    }
    forall i | 0 <= i < n.delivered + 1 && Closes(env, w, n.ctrl.outbound[i])
      ensures next.agg.workers[w].finalRevision == env.revision
    {
      if i < n.delivered {
        assert run.agg.workers[w].finalRevision == env.revision;
        FinishStays(env, run.agg, w, d, n.ctrl.outbound[i]);
      }
    }
  }

  /** A closing delta is the worker's finish. */
  lemma ClosingFinishes(env: Env, run: Run, w: string, d: MetricsDelta)
    requires EnvOk(env) && env.assignments == run.agg.assignments && Closes(env, w, d)
    requires env.revision > 0 ==> env.revision in env.assignments && run.agg.latest == env.assignments[env.revision]
    ensures Advanced(run.agg, w, d).finalRevision == env.revision
  {
    assert env.revision > 0;
    hide Add, Decoded, Trim;
  }

  /** A finish of the latest revision is not undone by another delta. */
  lemma FinishStays(env: Env, agg: Aggregate, w: string, d: MetricsDelta, closing: MetricsDelta)
    requires EnvOk(env) && env.assignments == agg.assignments && Closes(env, w, closing)
    requires env.revision > 0 ==> env.revision in env.assignments && agg.latest == env.assignments[env.revision]
    requires StateOf(agg, w).finalRevision == env.revision
    ensures Advanced(agg, w, d).finalRevision == env.revision
  {
    assert env.revision > 0;
    hide Add, Decoded, Trim;
  }

  lemma DeliverCenter(f: Fleet, w: string, d: MetricsDelta)
    requires CenterOk(EnvOf(f), f.coord, f.messages, RunOf(f).agg)
    requires Judge(RunOf(f).agg, w, Some(d)).Granted?
    ensures var m := Delivery(w, Some(d));
      var messages := f.messages + [m];
      && Play(f.coord.runId, messages) == Step(RunOf(f), m)
      && Step(RunOf(f), m).agg.assignments == RunOf(f).agg.assignments
      && CenterOk(EnvOf(f), f.coord, messages, Step(RunOf(f), m).agg)
  {
    var m := Delivery(w, Some(d));
    PlayAppend(f.coord.runId, f.messages, m);
    FreshAppend(f.coord.runId, f.messages, m);
    StepGranted(RunOf(f), w, d);
    hide Judge, Step, Play, FreshRevisions, EnvOk, Add, Decoded, Advanced;
  }

  lemma NodeDelivers(env: Env, w: string, n: Node)
    requires NodeOk(env, w, n) && n.delivered < |n.ctrl.outbound|
    ensures NodeOk(env, w, n.(delivered := n.delivered + 1))
  {
    hide EmittedOk, ControllerOk, Trim;
  }

  lemma DeliverOwn(env: Env, run: Run, w: string, n: Node, d: MetricsDelta)
    requires n.delivered < |n.ctrl.outbound| && d == n.ctrl.outbound[n.delivered]
    requires Judge(run.agg, w, Some(d)).Granted? && WorkerOk(env, run, w, n)
    requires EnvOk(env) && env.assignments == run.agg.assignments
    requires env.revision > 0 ==> env.revision in env.assignments && run.agg.latest == env.assignments[env.revision]
    ensures WorkerOk(env, Step(run, Delivery(w, Some(d))), w, n.(delivered := n.delivered + 1))
  {
    hide NodeOk, DeliveredOk, FinishCounted, Judge, Step, EnvOk;
    NodeDelivers(env, w, n);
    DeliverOwnHistory(run, w, n, d);
    DeliverOwnFinish(env, run, w, n, d);
  }

  lemma DeliverNodes(env: Env, run: Run, order: seq<string>, nodes: map<string, Node>, w: string, d: MetricsDelta)
    requires NodesOk(env, run, order, nodes) && w in nodes && nodes[w].delivered < |nodes[w].ctrl.outbound|
    requires d == nodes[w].ctrl.outbound[nodes[w].delivered] && Judge(run.agg, w, Some(d)).Granted?
    requires EnvOk(env) && env.assignments == run.agg.assignments
    requires env.revision > 0 ==> env.revision in env.assignments && run.agg.latest == env.assignments[env.revision]
    ensures NodesOk(env, Step(run, Delivery(w, Some(d))), order,
                    nodes[w := nodes[w].(delivered := nodes[w].delivered + 1)])
  {
    hide WorkerOk, Judge, Step, EnvOk, ListsOnce;
    DeliverOwn(env, run, w, nodes[w], d);
    var next := Step(run, Delivery(w, Some(d)));
    forall v | v in nodes && v != w ensures WorkerOk(env, next, v, nodes[v]) {
      DeliverOther(env, run, w, d, v, nodes[v]);
    }
    LogGrows(run, w, d);
  }

  lemma LogGrows(run: Run, w: string, d: MetricsDelta)
    requires Judge(run.agg, w, Some(d)).Granted?
    ensures var log := Step(run, Delivery(w, Some(d))).log;
      forall i :: 0 <= i < |log| ==> log[i].worker == w || (i < |run.log| && log[i] == run.log[i])
  {
    StepGranted(run, w, d);
    hide Judge, Step;
  }

  lemma HandedView(f: Fleet, w: string)
    requires HasPending(f, w)
    requires var m := Delivery(w, Some(Pending(f.nodes[w])));
      && Play(f.coord.runId, f.messages + [m]) == Step(RunOf(f), m)
      && Step(RunOf(f), m).agg.assignments == RunOf(f).agg.assignments
    ensures var m := Delivery(w, Some(Pending(f.nodes[w])));
      RunOf(Handed(f, w)) == Step(RunOf(f), m) && EnvOf(Handed(f, w)) == EnvOf(f)
  {
    hide Play, Step;
  }

  lemma DeliverKeeps(f: Fleet, w: string)
    requires HasPending(f, w) && FleetOk(f) && Fits(EmittedTotal(f))
    ensures FleetOk(Handed(f, w))
  {
    hide Step, Judge, Play, CenterOk, NodesOk, EnvOk, EnvOf, RunOf, Fits, EmittedTotal, ReconcilingOk;
    var d, n := Pending(f.nodes[w]), f.nodes[w];
    ReconcilingStays(f.coord, f.reconciling, f.nodes, w, n.(delivered := n.delivered + 1));
    NextIsGranted(f, w);
    ViewFleet(f);
    ViewEnv(f);
    DeliverCenter(f, w, d);
    HandedView(f, w);
    DeliverNodes(EnvOf(f), RunOf(f), f.order, f.nodes, w, d);
  }

  // ----- Every legal run -----------------------------------------------------------------------

  lemma StepKeeps(f: Fleet, m: Move)
    requires FleetOk(f) && Possible(f, m) && Hypotheses(f, m)
    ensures FleetOk(Next(f, m))
  {
    match m {
      case Advance(to) => AdvanceKeeps(f, to);
      case Join(w) => JoinKeeps(f, w);
      case Wake => WakeKeeps(f);
      case Publish => PublishKeeps(f);
      case Take(w, now, interval) => TakeKeeps(f, w, now, interval);
      case Fire(w, interval) => FireKeeps(f, w, interval);
      case EndScheduler(w, failed) => StopKeeps(f, w, SchedulerEnded(f.nodes[w].ctrl, failed));
      case Cancel(w) => StopKeeps(f, w, Cancelled(f.nodes[w].ctrl));
      case Deliver(w) =>
        HandingEmitsNothing(f, w);
        DeliverKeeps(f, w);
    }
  }

  lemma HandingEmitsNothing(f: Fleet, w: string)
    requires HasPending(f, w)
    ensures EmittedTotal(Handed(f, w)) == EmittedTotal(f)
  {
    hide Sum, Contents;
    assert EmittedTotals(Handed(f, w)) == EmittedTotals(f);
  }

  lemma {:induction false} LegalRunsKeep(f: Fleet, moves: seq<Move>)
    requires FleetOk(f) && Legal(f, moves)
    ensures FleetOk(After(f, moves))
    decreases |moves|
  {
    hide FleetOk, Possible, Hypotheses, Next;
    if moves == [] {
    } else {
      LegalRunsKeep(f, moves[..|moves| - 1]);
      StepKeeps(After(f, moves[..|moves| - 1]), moves[|moves| - 1]);
    }
  }

  /** A run of a validated configuration whose run ID has no surrounding whitespace. */
  ghost predicate RunStarts(config: Coordination.Config, runId: string, leadTime: Duration, clock: Time, f: Fleet) {
    && Coordination.ValidConfig(config) && Trim(runId) == runId != "" && leadTime > 0 && clock >= 0
    && Coordination.NewCoordinator(config, runId, leadTime).Some?
    && f == NewFleet(clock, Coordination.NewCoordinator(config, runId, leadTime).value)
  }

  /** A state some legal run leads to. */
  ghost predicate Reachable(config: Coordination.Config, runId: string, leadTime: Duration, clock: Time, f: Fleet) {
    exists start, moves :: RunStarts(config, runId, leadTime, clock, start) && Legal(start, moves) && f == After(start, moves)
  }

  lemma ReachableIsOk(config: Coordination.Config, runId: string, leadTime: Duration, clock: Time, f: Fleet)
    requires Reachable(config, runId, leadTime, clock, f)
    ensures FleetOk(f) && f.coord.runId == runId && f.coord.config == config
  {
    var start, moves :| RunStarts(config, runId, leadTime, clock, start) && Legal(start, moves) && f == After(start, moves);
    Coordination.NewIsConsistent(config, runId, leadTime);
    NewFleetOk(clock, start.coord);
    hide FleetOk;
    LegalRunsKeep(start, moves);
    SameRun(start, moves);
  }

  lemma MoveKeepsRun(f: Fleet, m: Move)
    requires FleetOk(f) && Possible(f, m)
    ensures Next(f, m).coord.runId == f.coord.runId && Next(f, m).coord.config == f.coord.config
  {
    hide CenterOk, NodesOk, NodeApplied, NodeFired, ContentOf, LoadSplitting.Split, Coordination.Consistent, Problem;
  }

  lemma {:induction false} SameRun(f: Fleet, moves: seq<Move>)
    requires FleetOk(f) && Legal(f, moves)
    ensures After(f, moves).coord.runId == f.coord.runId && After(f, moves).coord.config == f.coord.config
    decreases |moves|
  {
    hide FleetOk, Possible, Hypotheses, Next;
    if moves == [] {
    } else {
      LegalRunsKeep(f, moves[..|moves| - 1]);
      SameRun(f, moves[..|moves| - 1]);
      MoveKeepsRun(After(f, moves[..|moves| - 1]), moves[|moves| - 1]);
    }
  }

  /** Everything the fleet of a legal run has emitted fits its counters. */
  lemma ReachableFits(config: Coordination.Config, runId: string, leadTime: Duration, clock: Time, f: Fleet)
    requires Reachable(config, runId, leadTime, clock, f)
    ensures Fits(EmittedTotal(f))
  {
    var start, moves :| RunStarts(config, runId, leadTime, clock, start) && Legal(start, moves) && f == After(start, moves);
    hide Possible, Next, Fits;
    if moves == [] {
      hide Sum;
      NothingEmittedFits(f);
    }
  }

  lemma NothingEmittedFits(f: Fleet)
    requires f.order == []
    ensures Fits(EmittedTotal(f))
  {
    assert EmittedTotals(f) == [];
  }

  // ----- Controllers and aggregator agree ---------------------------------------------------------------

  /** In every reachable state nothing has been refused, each worker's accepted deltas
      are exactly the delivered prefix of what it emitted, and the next one in every
      queue will be accepted too, whether or not its controller still runs. */
  lemma EveryEmittedDeltaIsAccepted(config: Coordination.Config, runId: string, leadTime: Duration, clock: Time, f: Fleet)
    requires Reachable(config, runId, leadTime, clock, f)
    ensures RunOf(f).agg.violations == []
    ensures forall w :: w in f.nodes ==> DeliveredOk(RunOf(f), w, f.nodes[w])
    ensures forall w :: HasPending(f, w) ==>
      Judge(RunOf(f).agg, w, Some(Pending(f.nodes[w]))).Granted?
  {
    ReachableIsOk(config, runId, leadTime, clock, f);
    ReachableFits(config, runId, leadTime, clock, f);
    hide Judge, Fits, EmittedTotal, EnvOk, FreshRevisions, NodeOk, DeliveredOk, FinishCounted, Play, Reachable;
    forall w | w in f.nodes ensures DeliveredOk(RunOf(f), w, f.nodes[w]) {
      assert WorkerOk(EnvOf(f), RunOf(f), w, f.nodes[w]);
    }
    forall w | HasPending(f, w)
      ensures Judge(RunOf(f).agg, w, Some(Pending(f.nodes[w]))).Granted?
    {
      NextIsGranted(f, w);
    }
  }

  /** A report inside the run window that runs to the first reporting boundary after its
      start: only one that closes a superseded revision may stop elsewhere, and none is longer
      than a second. */
  ghost predicate EndsAtItsBoundary(started: Time, deadline: Time, latest: nat, d: MetricsDelta) {
    && d.intervalStart.Some? && d.intervalEnd.Some?
    && var start, end := d.intervalStart.value, d.intervalEnd.value;
      && started <= start < end <= deadline && end <= start + SECOND
      && (d.finalForRevision && end < deadline ==> d.revision < latest)
      && (!d.finalForRevision ==> OnGrid(started, SECOND, end))
      && (!d.finalForRevision || end == deadline ==> NoBoundaryInside(started, SECOND, start, end))
  }

  /** In every reachable state, each report any worker has emitted is such a report. */
  lemma EveryReportEndsAtItsBoundary(config: Coordination.Config, runId: string, leadTime: Duration, clock: Time,
                                     f: Fleet, w: string, i: nat)
    requires Reachable(config, runId, leadTime, clock, f) && w in f.nodes && i < |f.nodes[w].ctrl.outbound|
    ensures EndsAtItsBoundary(f.coord.startsAt, f.coord.deadline, f.coord.revision, f.nodes[w].ctrl.outbound[i])
  {
    ReachableIsOk(config, runId, leadTime, clock, f);
    var env := EnvOf(f);
    assert env.startsAt == f.coord.startsAt && env.deadline == f.coord.deadline && env.revision == f.coord.revision;
    assert NodesOk(env, RunOf(f), f.order, f.nodes);
    hide Reachable, FleetOk, EnvOf, RunOf, NodesOk, EndsAtItsBoundary, DeltaOk;
    AssertWorker(env, RunOf(f), f.order, f.nodes, w);
    EmittedEnds(env, w, f.nodes[w], i);
  }

  lemma EmittedEnds(env: Env, w: string, n: Node, i: nat)
    requires NodeOk(env, w, n) && i < |n.ctrl.outbound|
    ensures EndsAtItsBoundary(env.startsAt, env.deadline, env.revision, n.ctrl.outbound[i])
  {
    hide ControllerOk, InboxOk, SnapshotProblem, Continues, NoBoundaryInside, Trim;
    assert DeltaOk(env, w, n.ctrl.outbound[i], i);
  }

  /** The worker works on the latest revision and its deadline step is behind it. */
  ghost predicate PassedDeadline(f: Fleet, w: string) {
    && w in f.nodes
    && var c := f.nodes[w].ctrl;
      c.current.Some? && c.current.value.revision == f.coord.revision && !c.timerArmed
  }

  /** Every delta the worker emitted has reached the aggregator. */
  ghost predicate QueueEmpty(f: Fleet, w: string) {
    w in f.nodes ==> f.nodes[w].delivered == |f.nodes[w].ctrl.outbound|
  }

  /** One worker's share of completion: past its deadline step and with its queue
      delivered it is counted as finished, exactly when it ever started collecting. */
  lemma WorkerCompletes(f: Fleet, w: string)
    requires FleetOk(f) && f.coord.revision > 0 && PassedDeadline(f, w) && QueueEmpty(f, w)
    requires w in RunOf(f).agg.latest && RunOf(f).agg.latest[w].active
    ensures w in MissingFinals(RunOf(f).agg) <==> !f.nodes[w].ctrl.hasCollector
  {
    var env, run, n := EnvOf(f), RunOf(f), f.nodes[w];
    ViewFleet(f);
    ViewEnv(f);
    assert env.revision == f.coord.revision && env.deadline == f.coord.deadline;
    hide FleetOk, CenterOk, NodesOk, EnvOf, RunOf, AggregatorHistory.Consistent;
    AssertWorker(env, run, f.order, f.nodes, w);
    WorkerFinishes(env, run, w, n);
    StateRemembers(run, w, n);
  }

  lemma AssertWorker(env: Env, run: Run, order: seq<string>, nodes: map<string, Node>, w: string)
    requires NodesOk(env, run, order, nodes) && w in nodes
    ensures WorkerOk(env, run, w, nodes[w]) && DeliveredOk(run, w, nodes[w])
  {
    hide NodeOk, DeliveredOk, FinishCounted;
    assert WorkerOk(env, run, w, nodes[w]);
  }

  lemma WorkerFinishes(env: Env, run: Run, w: string, n: Node)
    requires EnvOk(env) && env.assignments == run.agg.assignments && env.revision > 0
    requires env.revision in env.assignments && run.agg.latest == env.assignments[env.revision]
    requires w in run.agg.latest && run.agg.latest[w].active
    requires WorkerOk(env, run, w, n) && n.delivered == |n.ctrl.outbound|
    requires n.ctrl.current.Some? && n.ctrl.current.value.revision == env.revision && !n.ctrl.timerArmed
    ensures n.ctrl.hasCollector ==> w in run.agg.workers && run.agg.workers[w].finalRevision == run.agg.latest[w].revision
    ensures !n.ctrl.hasCollector ==> n.ctrl.outbound == []
  {
    hide EmittedOk, InboxOk, Problem, History;
    assert ControllerOk(env, w, n.ctrl) && IssuedTo(env, w, n.ctrl.current.value);
    if n.ctrl.hasCollector {
      assert Reports(n.ctrl) && Finished(env, n.ctrl);
      assert Closes(env, w, n.ctrl.outbound[|n.ctrl.outbound| - 1]);
    }
  }

  // ----- When a worker never starts to collect ----------------------------------------------------

  /** A worker that applied its first assignment at or after the deadline has no collector
      and is still on that assignment; any other worker under load collects. */
  ghost predicate StartedOk(clock: Time, deadline: Time, n: Node) {
    && (n.started.Some? <==> n.ctrl.current.Some?)
    && (n.started.Some? ==>
          && n.started.value <= clock
          && (n.started.value >= deadline ==> !n.ctrl.hasCollector && n.ctrl.current.value.revision == n.joined + 1)
          && (n.started.value < deadline && IsActive(n.ctrl.current.value.load) ==> n.ctrl.hasCollector))
  }

  ghost predicate StartsOk(f: Fleet) {
    forall w :: w in f.nodes ==> StartedOk(f.clock, f.coord.deadline, f.nodes[w])
  }

  lemma TakeStarts(f: Fleet, w: string, now: Time, interval: Interval)
    requires FleetOk(f) && StartsOk(f) && Possible(f, Take(w, now, interval))
    requires f.nodes[w].ctrl.current.Some? ==> now < f.coord.deadline
    ensures StartedOk(now, f.coord.deadline, NodeApplied(f.nodes[w], now, interval).0)
  {
    hide FleetOk, EnvOf, RunOf, NodeOk, EnvOk, DeliveredOk, FinishCounted, RunControl.Apply, ContentOf, Problem,
      Transition, IssuedTo, Flushed;
    var n, env := f.nodes[w], EnvOf(f);
    EnvSees(f);
    WorkerOf(f, w);
    NextIsReplacement(env, w, n);
    IssuedWindow(env, w, n.inbox[0]);
    NothingYet(env, w, n);
    ApplyStarts(n.ctrl, n.inbox[0], now, ContentOf(interval));
    assert StartedOk(f.clock, f.coord.deadline, n);
  }

  lemma EnvSees(f: Fleet)
    ensures var env := EnvOf(f);
      env.clock == f.clock && env.deadline == f.coord.deadline && env.revision == f.coord.revision
  {
  }

  /** An accepted replacement becomes current, unless the controller halts on the way, and
      brings a collector when it has load and is not past its deadline. */
  lemma ApplyStarts(c: Controller, a: LoadAssignment, now: Time, content: Snapshot)
    requires c.interval > 0 && !c.halted && Transition(c.current, a) == Replace
    ensures var d := RunControl.Apply(c, a, now, content, true).0;
      if d.halted then c.current.Some? && d.current == c.current && d.hasCollector == c.hasCollector
      else d.current == Some(a) && d.hasCollector == (c.hasCollector || (IsActive(a.load) && now < AsTime(a.deadline)))
  {
    hide NewMetricsDelta, NextMetricBoundary, Transition;
  }

  lemma NothingYet(env: Env, w: string, n: Node)
    requires NodeOk(env, w, n)
    ensures n.ctrl.current.None? ==> !n.ctrl.hasCollector
    ensures n.ctrl.current.Some? && EnvOk(env) ==> env.revision > 0
  {
    hide EmittedOk, InboxOk, Problem;
    if n.ctrl.current.Some? && EnvOk(env) {
      IssuedMeansRevision(env, w, n.ctrl.current.value);
    }
  }

  /** Before the first revision nobody has started. */
  lemma NobodyStarted(f: Fleet)
    requires FleetOk(f) && StartsOk(f) && f.coord.revision == 0
    ensures forall w :: w in f.nodes ==> f.nodes[w].started.None?
  {
    assert EnvOf(f).revision == 0;
    hide FleetOk, EnvOf, RunOf, NodeOk, EnvOk, DeliveredOk, FinishCounted;
    forall w | w in f.nodes ensures f.nodes[w].started.None? {
      WorkerOf(f, w);
      NothingYet(EnvOf(f), w, f.nodes[w]);
      assert StartedOk(f.clock, f.coord.deadline, f.nodes[w]);
    }
  }

  lemma WakeStarts(f: Fleet)
    requires FleetOk(f) && StartsOk(f)
    ensures StartsOk(Woken(f))
  {
    hide FleetOk, Woken;
    WokenFrame(f);
    if f.coord.revision == 0 {
      NobodyStarted(f);
    }
    forall w | w in Woken(f).nodes ensures StartedOk(f.clock, Woken(f).coord.deadline, Woken(f).nodes[w]) {
      assert StartedOk(f.clock, f.coord.deadline, f.nodes[w]);
    }
  }

  lemma WokenFrame(f: Fleet)
    ensures var g := Woken(f);
      && g.clock == f.clock
      && (f.coord.revision > 0 ==> g.coord.deadline == f.coord.deadline)
      && g.nodes == f.nodes
  {
    hide LoadSplitting.Split;
  }

  lemma WindowStaysFixed(f: Fleet)
    requires FleetOk(f) && f.reconciling.Some?
    ensures f.coord.revision > 0 ==> Published(f).coord.deadline == f.coord.deadline
  {
    hide CenterOk, NodesOk, Coordination.Consistent, Problem, Coordination.IssuedBy;
  }

  lemma PublishStarts(f: Fleet)
    requires FleetOk(f) && StartsOk(f) && f.reconciling.Some?
    ensures StartsOk(Published(f))
  {
    hide FleetOk, Published, StartedOk;
    var g := Published(f);
    WindowStaysFixed(f);
    PublishedFrame(f);
    if f.coord.revision == 0 {
      NobodyStarted(f);
    }
    forall w | w in g.nodes ensures StartedOk(f.clock, g.coord.deadline, g.nodes[w]) {
      assert StartedOk(f.clock, f.coord.deadline, f.nodes[w]);
      StartedMoves(f.clock, f.coord.deadline, g.coord.deadline, f.nodes[w], g.nodes[w]);
    }
  }

  lemma PublishedFrame(f: Fleet)
    requires f.reconciling.Some?
    ensures var g := Published(f);
      && g.clock == f.clock && g.nodes.Keys == f.nodes.Keys
      && forall w :: w in g.nodes ==> g.nodes[w] == f.nodes[w].(inbox := g.nodes[w].inbox)
  {
  }

  lemma StartedMoves(clock: Time, deadline: Time, later: Time, n: Node, m: Node)
    requires StartedOk(clock, deadline, n) && m == n.(inbox := m.inbox)
    requires later == deadline || n.started.None?
    ensures StartedOk(clock, later, m)
  {
  }

  lemma FiredFrame(c: Controller, content: Snapshot)
    requires c.interval > 0
    ensures var d := Fired(c, content); d.current == c.current && d.hasCollector == c.hasCollector
  {
    hide NewMetricsDelta, NextMetricBoundary;
  }

  lemma MoveStarts(f: Fleet, m: Move)
    requires FleetOk(f) && StartsOk(f) && Possible(f, m) && Hypotheses(f, m)
    ensures StartsOk(Next(f, m))
  {
    hide FleetOk, NodeApplied, ContentOf, Woken, Published;
    match m {
      case Take(w, now, interval) => TakeStarts(f, w, now, interval);
      case Wake => WakeStarts(f);
      case Publish => PublishStarts(f);
      case _ => OthersStart(f, m);
    }
  }

  lemma OthersStart(f: Fleet, m: Move)
    requires StartsOk(f) && Possible(f, m) && !m.Take? && !m.Wake? && !m.Publish?
    ensures StartsOk(Next(f, m))
  {
    if m.Fire? {
      FiredFrame(f.nodes[m.worker].ctrl, ContentOf(m.interval));
    }
    hide Fired, ContentOf;
    var g := Next(f, m);
    forall w | w in g.nodes ensures StartedOk(g.clock, g.coord.deadline, g.nodes[w]) {
      assert w in f.nodes ==> StartedOk(f.clock, f.coord.deadline, f.nodes[w]);
    }
  }

  lemma {:induction false} LegalRunsStart(f: Fleet, moves: seq<Move>)
    requires FleetOk(f) && StartsOk(f) && Legal(f, moves)
    ensures StartsOk(After(f, moves))
    decreases |moves|
  {
    hide FleetOk, StartsOk, Possible, Hypotheses, Next;
    if moves == [] {
    } else {
      LegalRunsKeep(f, moves[..|moves| - 1]);
      LegalRunsStart(f, moves[..|moves| - 1]);
      MoveStarts(After(f, moves[..|moves| - 1]), moves[|moves| - 1]);
    }
  }

  lemma ReachableStarts(config: Coordination.Config, runId: string, leadTime: Duration, clock: Time, f: Fleet)
    requires Reachable(config, runId, leadTime, clock, f)
    ensures StartsOk(f)
  {
    var start, moves :| RunStarts(config, runId, leadTime, clock, start) && Legal(start, moves) && f == After(start, moves);
    Coordination.NewIsConsistent(config, runId, leadTime);
    NewFleetOk(clock, start.coord);
    hide FleetOk;
    LegalRunsStart(start, moves);
  }

  /** The worker applied its very first assignment at or after the deadline. */
  predicate FirstTakenLate(f: Fleet, w: string) {
    w in f.nodes && f.nodes[w].started.Some? && f.nodes[w].started.value >= f.coord.deadline
  }

  /** Once every worker active in the latest revision has passed its deadline step and
      its queue is delivered, the missing workers are exactly those that applied their
      very first assignment, the one of the latest revision, at or after the deadline. */
  lemma CompletionIsReached(config: Coordination.Config, runId: string, leadTime: Duration, clock: Time, f: Fleet)
    requires Reachable(config, runId, leadTime, clock, f) && f.coord.revision > 0
    requires forall w :: w in RunOf(f).agg.latest && RunOf(f).agg.latest[w].active ==>
      PassedDeadline(f, w) && QueueEmpty(f, w)
    ensures MissingFinals(RunOf(f).agg) ==
      set w | w in RunOf(f).agg.latest && RunOf(f).agg.latest[w].active && FirstTakenLate(f, w)
    ensures forall w :: w in MissingFinals(RunOf(f).agg) ==> w in f.nodes && f.nodes[w].joined + 1 == f.coord.revision
  {
    ReachableIsOk(config, runId, leadTime, clock, f);
    ReachableStarts(config, runId, leadTime, clock, f);
    hide FleetOk, Reachable, RunOf, MissingFinals, StartsOk;
    var agg := RunOf(f).agg;
    forall w | w in agg.latest && agg.latest[w].active
      ensures w in MissingFinals(agg) <==> FirstTakenLate(f, w)
      ensures FirstTakenLate(f, w) ==> f.nodes[w].joined + 1 == f.coord.revision
    {
      WorkerCompletes(f, w);
      LateStartersLack(f, w);
    }
    MissingAreActive(agg);
  }

  /** On its latest assignment an active worker lacks a collector exactly if it started late. */
  lemma LateStartersLack(f: Fleet, w: string)
    requires FleetOk(f) && StartsOk(f) && f.coord.revision > 0 && PassedDeadline(f, w)
    requires w in RunOf(f).agg.latest && RunOf(f).agg.latest[w].active
    ensures !f.nodes[w].ctrl.hasCollector <==> FirstTakenLate(f, w)
    ensures FirstTakenLate(f, w) ==> f.nodes[w].joined + 1 == f.coord.revision
  {
    ViewFleet(f);
    ViewEnv(f);
    WorkerOf(f, w);
    assert EnvOf(f).revision == f.coord.revision;
    hide FleetOk, CenterOk, NodesOk, EnvOf, RunOf, AggregatorHistory.Consistent, DeliveredOk, FinishCounted, EmittedOk,
      InboxOk, Problem, EnvOk;
    assert StartedOk(f.clock, f.coord.deadline, f.nodes[w]);
    assert ControllerOk(EnvOf(f), w, f.nodes[w].ctrl);
  }

  lemma MissingAreActive(agg: Aggregate)
    ensures forall w :: w in MissingFinals(agg) ==> w in agg.latest && agg.latest[w].active
  {
  }

  /** A worker emits at most one delta that ends at the deadline. */
  lemma {:induction false} ClosingIsUnique(env: Env, w: string, emitted: seq<MetricsDelta>, i: nat, j: nat)
    requires EmittedOk(env, w, emitted) && i < j < |emitted|
    ensures AsTime(emitted[i].intervalEnd) < AsTime(emitted[j].intervalEnd)
    decreases j
  {
    hide SnapshotProblem, IdleBetween;
    assert Continues(env, w, emitted[j - 1], emitted[j]) && DeltaOk(env, w, emitted[j], j);
    if i < j - 1 {
      ClosingIsUnique(env, w, emitted, i, j - 1);
    }
  }

  /** Nothing of a finished worker is on its way: everything it has emitted is delivered. */
  lemma FinishedHasDelivered(f: Fleet, w: string)
    requires FleetOk(f) && f.coord.revision > 0
    requires w in RunOf(f).agg.latest && RunOf(f).agg.latest[w].active && w !in MissingFinals(RunOf(f).agg)
    ensures w in f.nodes && f.nodes[w].delivered == |f.nodes[w].ctrl.outbound|
  {
    var env, run := EnvOf(f), RunOf(f);
    assert env.deadline == f.coord.deadline && env.revision == f.coord.revision;
    ViewFleet(f);
    ViewEnv(f);
    assert FreshRevisions(f.coord.runId, f.messages);
    EveryPlayIsCertified(f.coord.runId, f.messages, w);
    hide FleetOk, CenterOk, EnvOf, RunOf, Play, FreshRevisions;
    assert env.revision in env.assignments && run.agg.latest == env.assignments[env.revision] && run.agg.latest[w].revision > 0;
    FinishIsDelivered(run, w);
    hide AggregatorHistory.Consistent, Certified;
    if w !in f.nodes {
      NobodyReported(env, run, f.order, f.nodes, w);
    }
    AssertWorker(env, run, f.order, f.nodes, w);
    hide NodesOk;
    FinishIsTheEnd(env, run, w, f.nodes[w]);
  }

  /** A finished worker's history holds its final, against a window still recorded. */
  lemma FinishIsDelivered(run: Run, w: string)
    requires AggregatorHistory.Consistent(run) && Certified(run, w)
    requires w in run.agg.latest && run.agg.latest[w].active && run.agg.latest[w].revision > 0
    requires w !in MissingFinals(run.agg)
    ensures exists i :: 0 <= i < |History(run.log, w)| && Finishes(History(run.log, w)[i], run.agg.latest[w].revision)
                        && Recorded(run.agg.assignments, w, History(run.log, w)[i])
  {
    hide FleetConserved, WorkerConsistent, LatestRecorded, History, Finishes, Recorded;
    assert FinishBacked(run, w);
    var h := History(run.log, w);
    var e :| e in h && Finishes(e, run.agg.latest[w].revision);
    var i :| 0 <= i < |h| && h[i] == e;
    assert Recorded(run.agg.assignments, w, h[i]);
  }

  /** Nothing is emitted after a final at the deadline. */
  lemma FinishIsTheEnd(env: Env, run: Run, w: string, n: Node)
    requires EnvOk(env) && env.assignments == run.agg.assignments && WorkerOk(env, run, w, n) && DeliveredOk(run, w, n)
    requires env.revision > 0
    requires exists i, revision :: 0 <= i < |History(run.log, w)| && Finishes(History(run.log, w)[i], revision)
                                   && Recorded(run.agg.assignments, w, History(run.log, w)[i])
    ensures n.delivered == |n.ctrl.outbound|
  {
    hide History, ControllerOk, InboxOk, SnapshotProblem;
    var i, revision :| 0 <= i < |History(run.log, w)| && Finishes(History(run.log, w)[i], revision)
      && Recorded(run.agg.assignments, w, History(run.log, w)[i]);
    var emitted := n.ctrl.outbound;
    assert AsTime(emitted[i].intervalEnd) == env.deadline;
    assert DeltaOk(env, w, emitted[|emitted| - 1], |emitted| - 1);
    if i < |emitted| - 1 {
      ClosingIsUnique(env, w, emitted, i, |emitted| - 1);
    }
  }

  /** In a legal run, a worker that was under load from its first report on and has
      finished has reported every instant up to the deadline exactly once. */
  lemma FinishedWorkersCoverTheRun(config: Coordination.Config, runId: string, leadTime: Duration, clock: Time,
                                   f: Fleet, w: string)
    requires Reachable(config, runId, leadTime, clock, f) && f.coord.revision > 0
    requires w in RunOf(f).agg.latest && w in RunOf(f).agg.workers
    requires RunOf(f).agg.workers[w].finalRevision == f.coord.revision && AlwaysActive(RunOf(f), w)
    ensures var h := History(RunOf(f).log, w);
      h != [] && Tiles(h) && Covered(h) == f.coord.deadline - Start(h[0])
  {
    ReachableIsOk(config, runId, leadTime, clock, f);
    hide Reachable;
    var env, run := EnvOf(f), RunOf(f);
    assert env.deadline == f.coord.deadline && env.revision == f.coord.revision;
    ViewFleet(f);
    ViewEnv(f);
    assert FreshRevisions(f.coord.runId, f.messages);
    hide FleetOk, EnvOf, NodesOk, CenterOk, AggregatorHistory.Consistent, FreshRevisions, History, Tiles;
    assert CommonDeadline(run.agg, w, env.deadline);
    assert run == Play(f.coord.runId, f.messages);
    hide RunOf, Play;
    GaplessCoverage(f.coord.runId, f.messages, w, env.deadline);
  }

  // ----- Where the hypotheses are needed ---------------------------------------------------------

  /** The aggregator compares against the run ID as configured, the coordinator stamps
      it trimmed: the run check of any delta passes exactly when trimming changes nothing. */
  lemma RunIdMustBeTrimmed(config: Coordination.Config, runId: string, leadTime: Duration, agg: Aggregate,
                           w: string, d: MetricsDelta)
    requires Coordination.NewCoordinator(config, runId, leadTime).Some? && agg.runId == runId
    requires d.runId == Coordination.NewCoordinator(config, runId, leadTime).value.runId
    requires Trim(w) != "" && d.workerId == w
    ensures Judge(agg, w, Some(d)) == Verdict.Refused(RunMismatch) <==> Trim(runId) != runId
  {
    hide JudgeAssigned, Trim;
    if d.revision in agg.assignments && w in agg.assignments[d.revision] {
      AssignedRunsMatch(agg, w, d, agg.assignments[d.revision][w]);
    }
  }

  lemma AssignedRunsMatch(agg: Aggregate, w: string, d: MetricsDelta, window: Window)
    ensures JudgeAssigned(agg, w, d, window) != Verdict.Refused(RunMismatch)
  {
    hide Merged, RequiresContiguous, StatusCodesValid, Decoded;
  }

  /** A replacement with load that is applied at or after the deadline makes the
      controller report the whole run window once more. */
  lemma LateReplacementRepeatsTheRun(c: Controller, next: LoadAssignment, now: Time, content: Snapshot, late: Snapshot)
    requires c.interval > 0 && !c.halted && c.current.Some? && c.hasCollector
    requires Transition(c.current, next) == Replace && IsActive(next.load) && now >= AsTime(next.deadline)
    requires !Drained(c, now, content).0.halted
    ensures var (applied, reply) := RunControl.Apply(c, next, now, content, true);
      var fired := Fired(applied, late);
      && reply == Applied
      && (!fired.halted ==>
            && |fired.outbound| == |applied.outbound| + 1
            && var d := fired.outbound[|applied.outbound|];
              d.revision == next.revision && d.finalForRevision
              && d.intervalStart == next.startsAt && d.intervalEnd == next.deadline)
  {
    DrainKeepsShape(c, now, content);
    TransitionFacts(c.current, next);
    hide Problem, Flush;
    FlushShape(Installed(Drained(c, now, content).0, next, now, true).0.(scheduling := false), next, AsTime(next.deadline), late);
  }

  /** Instead of its timer, such a controller may take yet another replacement first: that
      repeats the run too, or ends the controller when the run is longer than an interval. */
  lemma AnotherReplacementRepeatsTheRun(c: Controller, next: LoadAssignment, now: Time, content: Snapshot)
    requires c.interval > 0 && !c.halted && c.current.Some? && c.hasCollector
    requires var a := c.current.value;
      && IsActive(a.load) && c.intervalStart == AsTime(a.startsAt) < AsTime(a.deadline) <= now
      && AsTime(a.deadline) - AsTime(a.startsAt) <= MAX_I64
    requires Transition(c.current, next) == Replace
    ensures var a := c.current.value;
      var (applied, reply) := RunControl.Apply(c, next, now, content, true);
      && (AsTime(a.deadline) - AsTime(a.startsAt) > c.interval ==>
            reply == Overdue && applied.halted && applied.outbound == c.outbound)
      && (AsTime(a.deadline) - AsTime(a.startsAt) <= c.interval && reply != FlushFailed ==>
            && |applied.outbound| == |c.outbound| + 1
            && var d := applied.outbound[|c.outbound|];
              d.revision == a.revision && d.finalForRevision
              && d.intervalStart == Some(AsTime(a.startsAt)) && d.intervalEnd == Some(AsTime(a.deadline)))
  {
    hide Flush, NextMetricBoundary, Transition;
    FlushShape(c.(scheduling := false), c.current.value, AsTime(c.current.value.deadline), content);
  }

  lemma TransitionFacts(current: Option<LoadAssignment>, next: LoadAssignment)
    requires Transition(current, next) == Replace
    ensures next.startsAt.Some? && next.deadline.Some? && next.startsAt.value < next.deadline.value
  {
  }

  lemma FlushShape(c: Controller, a: LoadAssignment, end: Time, content: Snapshot)
    ensures var f := Flush(c, a, end, content, true);
      !f.halted ==>
        && |f.outbound| == |c.outbound| + 1
        && f == c.(outbound := f.outbound, sequence := f.sequence)
        && var d := f.outbound[|c.outbound|];
          d.revision == a.revision && d.finalForRevision && d.intervalStart == Some(c.intervalStart) && d.intervalEnd == Some(end)
  {
  }

  lemma DrainKeepsShape(c: Controller, now: Time, content: Snapshot)
    ensures var d := Drained(c, now, content).0;
      d.hasCollector == c.hasCollector && d.interval == c.interval
  {
  }

  /** The next well-formed report of a worker for a revision it has not reported on yet. */
  ghost predicate WellFormedNext(run: Run, w: string, d: MetricsDelta, window: Window) {
    && Addressed(d, run.agg.runId, w)
    && d.revision in run.agg.assignments && w in run.agg.assignments[d.revision]
    && run.agg.assignments[d.revision][w] == window
    && d.sequence == (StateOf(run.agg, w).lastSequence + 1) % TWO_64
    && d.revision > StateOf(run.agg, w).lastRevision
    && SnapshotProblem(d) == None && Merged([run.agg.snapshot, Decoded(d)]).Some?
  }

  /** A report of the whole run window is accepted exactly as a worker's first one in a
      run of at most a second: repeated after a late replacement it is refused. */
  lemma WholeRunAcceptedExactly(run: Run, w: string, d: MetricsDelta, window: Window)
    requires AggregatorHistory.Consistent(run) && WellFormedNext(run, w, d, window)
    requires d.intervalStart == Some(window.startsAt) && d.intervalEnd == Some(window.deadline) && d.finalForRevision
    requires 0 <= window.startsAt < window.deadline <= MAX_TIMESTAMP
    requires forall e :: e in History(run.log, w) ==> e.window.startsAt == window.startsAt
    ensures Judge(run.agg, w, Some(d)).Granted? <==>
      History(run.log, w) == [] && window.deadline - window.startsAt <= SECOND
  {
    ReportedPast(run, w, window);
    SecondMergeCannotFail(run, w, Some(d));
    var state := StateOf(run.agg, w);
    WholeRunInterval(d, window, state.lastInterval,
                     RequiresContiguous(run.agg.assignments, w, state.lastRevision, d.revision),
                     LatestRevision(run.agg, w) > d.revision);
    hide AggregatorHistory.Consistent, StateOf, SnapshotProblem, Merged, Decoded, RequiresContiguous, Trim, History,
      IntervalProblem;
  }

  /** Whoever has reported in a window has reported past its start. */
  lemma ReportedPast(run: Run, w: string, window: Window)
    requires AggregatorHistory.Consistent(run) && window.startsAt >= 0
    requires forall e :: e in History(run.log, w) ==> e.window.startsAt == window.startsAt
    ensures var state := StateOf(run.agg, w);
      && (History(run.log, w) == [] ==> state == NEW_WORKER)
      && (History(run.log, w) != [] ==> state.lastInterval > window.startsAt && state.closedRevision <= state.lastRevision)
  {
    var h := History(run.log, w);
    assert WorkerConsistent(run, w);
    hide Shape, History, TotalOf, FleetConserved, LatestRecorded, SnapshotProblem;
    if h != [] {
      assert h[|h| - 1] in h && EntryValid(h[|h| - 1], |h| - 1) by { assert Shape(h); LastIsValid(h); }
    }
  }

  lemma LastIsValid(h: seq<Entry>)
    requires Shape(h) && h != []
    ensures EntryValid(h[|h| - 1], |h| - 1)
  {
  }

  lemma WholeRunInterval(d: MetricsDelta, window: Window, last: Time, contiguous: bool, partialAllowed: bool)
    requires d.intervalStart == Some(window.startsAt) && d.intervalEnd == Some(window.deadline) && d.finalForRevision
    requires 0 <= window.startsAt < window.deadline <= MAX_TIMESTAMP && (last == 0 || last > window.startsAt)
    ensures IntervalProblem(d, window, last, contiguous, partialAllowed) == None <==>
      last == 0 && window.deadline - window.startsAt <= SECOND
  {
  }
}
