/** The remaining moves of a run: a coordinator wakeup reaches every worker, and every
    emitted delta is accepted when it is delivered. */
module FleetDelivery {
  import opened Wire
  import opened Snapshots
  import opened LoadSplitting
  import opened Assignments
  import Coordination
  import opened Aggregation
  import opened AggregatorHistory
  import opened Coverage
  import opened RunControl
  import opened Deltas
  import opened FleetNode
  import opened FleetRuns

  // ----- A wakeup of the coordinator -----------------------------------------------------

  /** The workers' view once a revision has been recorded. */
  ghost function Revised(env: Env, coord: Coordination.Coordinator, assignments: map<string, LoadAssignment>): Env {
    Env(env.clock, coord.runId, coord.config.target, coord.revision, coord.startsAt, coord.deadline,
        env.assignments[coord.revision := WindowsOf(coord.revision, assignments)])
  }

  lemma RevisedOk(f: Fleet, coord: Coordination.Coordinator, assignments: map<string, LoadAssignment>)
    requires EnvOk(EnvOf(f)) && Coordination.Consistent(f.coord) && Coordination.Consistent(coord)
    requires coord.revision == f.coord.revision + 1 && coord.config == f.coord.config && coord.runId == f.coord.runId
    requires f.coord.revision > 0 ==> coord.startsAt == f.coord.startsAt && coord.deadline == f.coord.deadline
    requires 0 <= coord.startsAt && coord.deadline <= MAX_TIMESTAMP
    requires forall w :: w in assignments ==> Coordination.IssuedBy(coord, assignments[w]) && Problem(assignments[w]) == None
    ensures var env, next := EnvOf(f), Revised(EnvOf(f), coord, assignments);
      && EnvOk(next) && Extends(env, next)
      && forall w :: w in assignments ==> IssuedTo(next, w, assignments[w])
  {
    hide Problem, RunOf, Trim;
    var env, next := EnvOf(f), Revised(EnvOf(f), coord, assignments);
    forall r: nat, w | r in next.assignments && w in next.assignments[r]
      ensures next.assignments[r][w] == Window(r, next.startsAt, next.deadline, next.assignments[r][w].active)
    {
      if r == coord.revision {
        assert Coordination.IssuedBy(coord, assignments[w]);
      }
    }
  }

  lemma WorkerReceives(env: Env, next: Env, run: Run, later: Run, w: string, n: Node, a: LoadAssignment)
    requires EnvOk(env) && EnvOk(next) && Extends(env, next) && next.revision == env.revision + 1
    requires WorkerOk(env, run, w, n) && n.joined <= env.revision
    requires IssuedTo(next, w, a) && a.revision == next.revision && later.log == run.log
    ensures WorkerOk(next, later, w, n.(inbox := n.inbox + [a]))
  {
    NodeReceives(env, next, w, n, a);
    OlderDoNotClose(env, next, w, n);
    hide NodeOk, EnvOk, Extends, IssuedTo, History;
  }

  /** Nothing emitted so far belongs to a revision that has just been recorded. */
  lemma OlderDoNotClose(env: Env, next: Env, w: string, n: Node)
    requires EnvOk(env) && next.revision == env.revision + 1 && NodeOk(env, w, n)
    ensures forall i :: 0 <= i < |n.ctrl.outbound| ==> !Closes(next, w, n.ctrl.outbound[i])
  {
    hide SnapshotProblem, ControllerOk, InboxOk;
    forall i | 0 <= i < |n.ctrl.outbound| ensures !Closes(next, w, n.ctrl.outbound[i]) {
      assert DeltaOk(env, w, n.ctrl.outbound[i], i);
    }
  }

  /** A worker that joined too late for the revision waits for the next one. */
  lemma WorkerLeftOut(env: Env, next: Env, run: Run, later: Run, w: string, n: Node)
    requires EnvOk(env) && EnvOk(next) && Extends(env, next) && next.revision == env.revision + 1
    requires WorkerOk(env, run, w, n) && n.joined == env.revision + 1 && later.log == run.log
    ensures WorkerOk(next, later, w, n)
  {
    NodeLeftOut(env, next, w, n);
    OlderDoNotClose(env, next, w, n);
    hide NodeOk, EnvOk, Extends, History;
  }

  lemma NodesReceive(env: Env, next: Env, run: Run, later: Run, order: seq<string>, nodes: map<string, Node>,
                     assignments: map<string, LoadAssignment>)
    requires EnvOk(env) && EnvOk(next) && Extends(env, next) && next.revision == env.revision + 1
    requires NodesOk(env, run, order, nodes) && later.log == run.log
    requires forall w :: w in assignments <==> w in nodes && nodes[w].joined <= env.revision
    requires forall w :: w in assignments ==> IssuedTo(next, w, assignments[w]) && assignments[w].revision == next.revision
    ensures NodesOk(next, later, order, Delivering(nodes, assignments))
  {
    hide EnvOk, Extends, WorkerOk, IssuedTo, ListsOnce;
    forall w | w in nodes ensures WorkerOk(next, later, w, Delivering(nodes, assignments)[w]) {
      if w in assignments {
        WorkerReceives(env, next, run, later, w, nodes[w], assignments[w]);
      } else {
        JoinedByNext(env, run, w, nodes[w]);
        WorkerLeftOut(env, next, run, later, w, nodes[w]);
      }
    }
  }

  lemma JoinedByNext(env: Env, run: Run, w: string, n: Node)
    requires WorkerOk(env, run, w, n)
    ensures n.joined <= env.revision + 1
  {
    hide DeliveredOk, FinishCounted, EmittedOk, ControllerOk, InboxOk;
  }

  lemma OrderIsUsable(env: Env, run: Run, order: seq<string>, nodes: map<string, Node>)
    requires NodesOk(env, run, order, nodes)
    ensures UsableIds(order)
  {
    hide EmittedOk, ControllerOk, InboxOk, DeliveredOk, FinishCounted, Trim;
    forall i | 0 <= i < |order| ensures Trim(order[i]) != "" {
      assert order[i] in nodes;
      assert WorkerOk(env, run, order[i], nodes[order[i]]);
    }
  }

  lemma CenterRevised(f: Fleet, coord: Coordination.Coordinator, assignments: map<string, LoadAssignment>)
    requires CenterOk(EnvOf(f), f.coord, f.messages, RunOf(f).agg) && Coordination.Consistent(coord)
    requires coord.revision == f.coord.revision + 1 && coord.runId == f.coord.runId
    requires EnvOk(Revised(EnvOf(f), coord, assignments))
    ensures var messages := f.messages + [Revision(coord.revision, assignments)];
      var run := Play(coord.runId, messages);
      && run == Step(RunOf(f), Revision(coord.revision, assignments))
      && CenterOk(Revised(EnvOf(f), coord, assignments), coord, messages, run.agg)
  {
    var m := Revision(coord.revision, assignments);
    assert coord.revision !in RunOf(f).agg.assignments;
    hide EnvOk, Coordination.Consistent, Play, FreshRevisions, WindowsOf;
    PlayAppend(f.coord.runId, f.messages, m);
    FreshAppend(f.coord.runId, f.messages, m);
  }

  /** Making a revision keeps everything, and makes one that can be recorded at any time. */
  lemma WakeKeeps(f: Fleet)
    requires FleetOk(f) && f.reconciling.None?
    requires f.coord.revision == 0 ==>
      f.clock + f.coord.leadTime + f.coord.config.load.duration <= MAX_TIMESTAMP
    ensures FleetOk(Woken(f))
  {
    var env := EnvOf(f);
    assert env.clock == f.clock && env.revision == f.coord.revision;
    assert CenterOk(env, f.coord, f.messages, RunOf(f).agg);
    assert f.clock >= 0 && Coordination.Consistent(f.coord) && EnvOk(env);
    assert env.startsAt == f.coord.startsAt && env.deadline == f.coord.deadline;
    assert f.coord.revision > 0 ==> 0 <= f.coord.startsAt && f.coord.deadline <= MAX_TIMESTAMP;
    assert NodesOk(env, RunOf(f), f.order, f.nodes);
    SameView(f);
    hide EnvOk, Coordination.Reconcile, Coordination.Consistent, CenterOk, RunOf, EnvOf, WorkerOk, ListsOnce;
    OrderIsUsable(env, RunOf(f), f.order, f.nodes);
    hide NodesOk;
    RevisionIsMade(f);
  }

  lemma RevisionIsMade(f: Fleet)
    requires Coordination.Consistent(f.coord) && UsableIds(f.order) && f.clock >= 0
    requires forall w :: w in f.order <==> w in f.nodes
    requires ReconcilingOk(f.coord, None, f.nodes)
    requires f.coord.revision > 0 ==> 0 <= f.coord.startsAt && f.coord.deadline <= MAX_TIMESTAMP
    requires f.coord.revision == 0 ==>
      f.clock + f.coord.leadTime + f.coord.config.load.duration <= MAX_TIMESTAMP
    ensures var (coord, outcome) := Coordination.Reconcile(f.coord, f.order, f.clock);
      if outcome.Issued? then ReconcilingOk(f.coord, Some(Reconciled(coord, outcome.assignments)), f.nodes)
      else coord == f.coord
  {
    Coordination.ReconcileIssues(f.coord, f.order, f.clock);
    FirstWindow(f);
    assert f.coord.leadTime > 0;
    hide Coordination.Reconcile, Coordination.Consistent, Problem, Coordination.IssuedBy;
  }

  /** The window that the first revision fixes. */
  lemma FirstWindow(f: Fleet)
    ensures var (coord, outcome) := Coordination.Reconcile(f.coord, f.order, f.clock);
      outcome.Issued? && f.coord.revision == 0 ==>
        && coord.startsAt == f.clock + f.coord.leadTime
        && coord.deadline == coord.startsAt + f.coord.config.load.duration
  {
    hide LoadSplitting.Split;
  }

  /** What is being made is not visible to anyone else. */
  lemma SameView(f: Fleet)
    ensures forall r :: RunOf(f.(reconciling := r)) == RunOf(f) && EnvOf(f.(reconciling := r)) == EnvOf(f)
  {
    hide Play;
  }

  lemma PublishKeeps(f: Fleet)
    requires FleetOk(f) && f.reconciling.Some?
    ensures FleetOk(Published(f))
  {
    var env, r := EnvOf(f), f.reconciling.value;
    assert env.revision == f.coord.revision;
    assert CenterOk(env, f.coord, f.messages, RunOf(f).agg);
    assert Coordination.Consistent(f.coord) && EnvOk(env);
    hide EnvOk, Coordination.Consistent, CenterOk, NodesOk, RunOf, Problem, Extends, IssuedTo;
    RevisedOk(f, r.coord, r.assignments);
    CenterRevised(f, r.coord, r.assignments);
    forall w | w in r.assignments ensures r.assignments[w].revision == r.coord.revision {
      assert Coordination.IssuedBy(r.coord, r.assignments[w]);
    }
    NodesReceive(env, Revised(env, r.coord, r.assignments), RunOf(f),
                 Step(RunOf(f), Revision(r.coord.revision, r.assignments)), f.order, f.nodes, r.assignments);
    PublishedView(f);
    JoinedSinceRead(f);
  }

  /** Nobody that has joined by now has to wait for more than the next revision. */
  lemma JoinedSinceRead(f: Fleet)
    requires f.reconciling.Some? && NodesOk(EnvOf(f), RunOf(f), f.order, f.nodes)
    requires f.reconciling.value.coord.revision == f.coord.revision + 1
    ensures ReconcilingOk(Published(f).coord, None, Published(f).nodes)
  {
    assert EnvOf(f).revision == f.coord.revision;
    hide EnvOf, RunOf;
    forall w | w in f.nodes ensures f.nodes[w].joined <= f.coord.revision + 1 {
      assert WorkerOk(EnvOf(f), RunOf(f), w, f.nodes[w]);
      JoinedByNext(EnvOf(f), RunOf(f), w, f.nodes[w]);
    }
  }

  lemma PublishedView(f: Fleet)
    requires f.reconciling.Some? && f.reconciling.value.coord.runId == f.coord.runId
    ensures var r, g := f.reconciling.value, Published(f);
      var m := Revision(r.coord.revision, r.assignments);
      && g.coord == r.coord && g.order == f.order && g.reconciling == None
      && g.messages == f.messages + [m] && g.nodes == Delivering(f.nodes, r.assignments)
      && RunOf(g) == Step(RunOf(f), m)
      && EnvOf(g) == Revised(EnvOf(f), r.coord, r.assignments)
  {
    hide Play;
    var r := f.reconciling.value;
    PlayAppend(f.coord.runId, f.messages, Revision(r.coord.revision, r.assignments));
  }

  // ----- A delivery ---------------------------------------------------------------------------

  lemma {:induction false} PrefixBelow(snapshots: seq<Snapshot>, n: nat)
    requires n <= |snapshots|
    ensures Below(Sum(snapshots[..n]), Sum(snapshots))
    decreases |snapshots|
  {
    hide Add, Below;
    if n == |snapshots| {
      assert snapshots[..n] == snapshots;
      BelowReflexive(Sum(snapshots));
    } else {
      var init, last := snapshots[..|snapshots| - 1], snapshots[|snapshots| - 1];
      PrefixBelow(init, n);
      assert init[..n] == snapshots[..n];
      BelowReflexive(last);
      BelowAdd(Sum(init[..n]), Sum(init), EMPTY, last);
      AddLaws(Sum(init[..n]), EMPTY, EMPTY);
    }
  }

  /** What a worker's accepted history adds up to is a prefix of what it emitted. */
  lemma AcceptedIsPrefix(run: Run, w: string, n: Node)
    requires DeliveredOk(run, w, n)
    ensures TotalOf(History(run.log, w)) == Sum(Contents(n.ctrl.outbound)[..n.delivered])
  {
    hide Sum, History, Decoded;
    var h := History(run.log, w);
    assert Contributions(h) == Contents(n.ctrl.outbound)[..n.delivered];
  }

  lemma AcceptedBelowEmitted(run: Run, w: string, n: Node)
    requires DeliveredOk(run, w, n)
    ensures Below(TotalOf(History(run.log, w)), Sum(Contents(n.ctrl.outbound)))
  {
    hide Sum, History, Decoded, Below;
    AcceptedIsPrefix(run, w, n);
    PrefixBelow(Contents(n.ctrl.outbound), n.delivered);
  }

  lemma NextBelowEmitted(run: Run, w: string, n: Node)
    requires DeliveredOk(run, w, n) && n.delivered < |n.ctrl.outbound|
    ensures Below(Add(TotalOf(History(run.log, w)), Decoded(n.ctrl.outbound[n.delivered])), Sum(Contents(n.ctrl.outbound)))
  {
    hide Sum, History, Decoded, Below, Add;
    var contents, k := Contents(n.ctrl.outbound), n.delivered;
    AcceptedIsPrefix(run, w, n);
    PrefixBelow(contents, k + 1);
    assert contents[..k + 1] == contents[..k] + [contents[k]];
    SumAppend(contents[..k], contents[k]);
  }

  /** While everything emitted fits, so does what has been accepted plus any one pending delta. */
  lemma DeliveryFits(f: Fleet, run: Run, env: Env, w: string)
    requires NodesOk(env, run, f.order, f.nodes) && w in f.nodes && Fits(EmittedTotal(f))
    requires f.nodes[w].delivered < |f.nodes[w].ctrl.outbound|
    ensures Fits(Add(TotalOf(run.log), Decoded(f.nodes[w].ctrl.outbound[f.nodes[w].delivered])))
  {
    hide Sum, History, Decoded, Below, Add, Fits, NodeOk, FinishCounted, DeliveredOk, TotalOf, Contents;
    var d := Decoded(f.nodes[w].ctrl.outbound[f.nodes[w].delivered]);
    var accepted, emitted := PerWorker(run.log, f.order), EmittedTotals(f);
    LogSplitsByWorker(run.log, f.order);
    assert w in f.order;
    var j :| 0 <= j < |f.order| && f.order[j] == w;
    var next := accepted[j := Add(accepted[j], d)];
    SumUpdate(accepted, j, d);
    forall i | 0 <= i < |f.order| ensures Below(next[i], emitted[i]) {
      var v := f.order[i];
      assert v in f.nodes && WorkerOk(env, run, v, f.nodes[v]);
      AcceptedBelowEmitted(run, v, f.nodes[v]);
      if i == j {
        NextBelowEmitted(run, w, f.nodes[w]);
      }
    }
    SumBelow(next, emitted);
    BelowFits(Sum(next), Sum(emitted));
  }

  /** What the aggregator remembers of a worker, in terms of what the worker emitted. */
  ghost predicate Remembers(state: WorkerState, emitted: seq<MetricsDelta>, k: nat)
    requires k <= |emitted|
  {
    && (k == 0 ==> state == NEW_WORKER)
    && (k > 0 ==>
          var last := emitted[k - 1];
          && state.lastSequence == k % TWO_64 && state.lastDelta == Some(last)
          && state.lastInterval == AsTime(last.intervalEnd) && state.lastRevision == last.revision
          && state.closedRevision <= state.lastRevision
          && (state.closedRevision == state.lastRevision <==> last.finalForRevision))
  }

  lemma StateRemembers(run: Run, w: string, n: Node)
    requires AggregatorHistory.Consistent(run) && DeliveredOk(run, w, n)
    ensures Remembers(StateOf(run.agg, w), n.ctrl.outbound, n.delivered)
  {
    hide FleetConserved, Shape, History, TotalOf, LatestRecorded;
    assert WorkerConsistent(run, w);
    var h := History(run.log, w);
    assert h != [] ==> h[|h| - 1].delta == n.ctrl.outbound[|h| - 1];
  }

  /** An emitted delta's interval passes every interval check of the aggregator. */
  lemma IntervalPasses(env: Env, w: string, emitted: seq<MetricsDelta>, k: nat, state: WorkerState)
    requires EnvOk(env) && EmittedOk(env, w, emitted) && k < |emitted| && Remembers(state, emitted, k)
    ensures var d := emitted[k];
      d.revision in env.assignments && w in env.assignments[d.revision]
      && IntervalProblem(d, env.assignments[d.revision][w], state.lastInterval,
                         RequiresContiguous(env.assignments, w, state.lastRevision, d.revision),
                         env.revision > d.revision) == None
  {
    hide SnapshotProblem, IdleBetween;
    var d := emitted[k];
    assert DeltaOk(env, w, d, k);
    assert env.revision > 0;
    assert env.assignments[d.revision][w].startsAt == env.startsAt;
    if k > 0 {
      assert Continues(env, w, emitted[k - 1], d);
    }
  }

  lemma ViewFleet(f: Fleet)
    requires FleetOk(f)
    ensures CenterOk(EnvOf(f), f.coord, f.messages, RunOf(f).agg)
    ensures NodesOk(EnvOf(f), RunOf(f), f.order, f.nodes)
    ensures AggregatorHistory.Consistent(RunOf(f))
  {
    EveryPlayIsConsistent(f.coord.runId, f.messages);
    hide NodesOk, EnvOf, CenterOk, AggregatorHistory.Consistent, Play;
  }

  lemma ViewEnv(f: Fleet)
    requires CenterOk(EnvOf(f), f.coord, f.messages, RunOf(f).agg)
    ensures var env, agg := EnvOf(f), RunOf(f).agg;
      && EnvOk(env) && env.assignments == agg.assignments && env.runId == agg.runId
      && (env.revision > 0 ==> env.revision in env.assignments && agg.latest == env.assignments[env.revision])
  {
    hide EnvOk, FreshRevisions, Play, RunOf;
  }

  /** The next delta of a worker's queue is accepted, whatever the other workers did. */
  lemma NextIsGranted(f: Fleet, w: string)
    requires w in f.nodes && f.nodes[w].delivered < |f.nodes[w].ctrl.outbound|
    requires FleetOk(f) && Fits(EmittedTotal(f))
    ensures Judge(RunOf(f).agg, w, Some(f.nodes[w].ctrl.outbound[f.nodes[w].delivered])).Granted?
  {
    hide EnvOk, RunOf, EnvOf, FleetOk, AggregatorHistory.Consistent, WorkerOk, Play, EmittedTotal, CenterOk, ListsOnce, Judge;
    var env, run, n := EnvOf(f), RunOf(f), f.nodes[w];
    ViewFleet(f);
    ViewEnv(f);
    DeliveryFits(f, run, env, w);
    assert WorkerOk(env, run, w, n);
    WorkerDelivered(env, run, w, n);
    StateRemembers(run, w, n);
    QueueIsGranted(env, run, w, n);
  }

  lemma WorkerDelivered(env: Env, run: Run, w: string, n: Node)
    requires WorkerOk(env, run, w, n)
    ensures DeliveredOk(run, w, n)
  {
    hide DeliveredOk, NodeOk, FinishCounted;
  }

  lemma QueueIsGranted(env: Env, run: Run, w: string, n: Node)
    requires EnvOk(env) && WorkerOk(env, run, w, n) && AggregatorHistory.Consistent(run)
    requires env.assignments == run.agg.assignments && env.runId == run.agg.runId
    requires env.revision > 0 ==> env.revision in env.assignments && run.agg.latest == env.assignments[env.revision]
    requires n.delivered < |n.ctrl.outbound| && Remembers(StateOf(run.agg, w), n.ctrl.outbound, n.delivered)
    requires Fits(Add(TotalOf(run.log), Decoded(n.ctrl.outbound[n.delivered])))
    ensures Judge(run.agg, w, Some(n.ctrl.outbound[n.delivered])).Granted?
  {
    hide EnvOk, AggregatorHistory.Consistent, Add, Fits, Decoded, TotalOf, Sum, EmittedOk, ControllerOk, InboxOk,
      DeliveredOk, FinishCounted, Judge, Remembers, RequiresContiguous, IntervalProblem, SnapshotProblem, Merged;
    var d, k := n.ctrl.outbound[n.delivered], n.delivered;
    SecondMergeCannotFail(run, w, Some(d));
    LatestOfWorker(env, run, w, n, d);
    EmittedIdentity(env, w, n.ctrl.outbound, k);
    IntervalPasses(env, w, n.ctrl.outbound, k, StateOf(run.agg, w));
    FleetMergePasses(run, d);
    ChecksGrant(run.agg, env.revision, w, n.ctrl.outbound, k);
  }

  lemma FleetMergePasses(run: Run, d: MetricsDelta)
    requires AggregatorHistory.Consistent(run) && Fits(Add(TotalOf(run.log), Decoded(d)))
    ensures Merged([run.agg.snapshot, Decoded(d)]).Some?
  {
    hide AggregatorHistory.Consistent, Add, Fits, Decoded, TotalOf, Sum;
    FleetIsTotal(run);
    SumSmall(run.agg.snapshot, Decoded(d));
  }

  /** The checks passed one by one amount to acceptance. */
  lemma ChecksGrant(a: Aggregate, revision: nat, w: string, emitted: seq<MetricsDelta>, k: nat)
    requires k < |emitted| && Trim(w) != "" && Remembers(StateOf(a, w), emitted, k)
    requires var d := emitted[k];
      && d.workerId == w && d.runId == a.runId && d.sequence == k + 1 < TWO_64
      && d.revision in a.assignments && w in a.assignments[d.revision] && d.revision > 0
      && (k > 0 ==> emitted[k - 1].sequence == k
                    && emitted[k - 1].revision <= d.revision
                    && (emitted[k - 1].finalForRevision ==> emitted[k - 1].revision < d.revision))
      && LatestRevision(a, w) == revision
      && IntervalProblem(d, a.assignments[d.revision][w], StateOf(a, w).lastInterval,
                         RequiresContiguous(a.assignments, w, StateOf(a, w).lastRevision, d.revision),
                         revision > d.revision) == None
      && SnapshotProblem(d) == None
      && Merged([a.snapshot, Decoded(d)]).Some?
      && Judge(a, w, Some(d)) != Verdict.Refused(WorkerOverflow)
    ensures Judge(a, w, Some(emitted[k])).Granted?
  {
    hide RequiresContiguous, IntervalProblem, SnapshotProblem, Merged, Decoded, Trim;
  }

  lemma LatestOfWorker(env: Env, run: Run, w: string, n: Node, d: MetricsDelta)
    requires EnvOk(env) && NodeOk(env, w, n) && d in n.ctrl.outbound
    requires env.assignments == run.agg.assignments
    requires env.revision > 0 ==> env.revision in env.assignments && run.agg.latest == env.assignments[env.revision]
    ensures LatestRevision(run.agg, w) == env.revision
  {
    hide EmittedOk, InboxOk, Problem, Collecting, Finished;
    assert n.ctrl.current.Some?;
    IssuedMeansRevision(env, w, n.ctrl.current.value);
  }

  /** Identity, number and revision of a worker's next delta against what came before. */
  lemma EmittedIdentity(env: Env, w: string, emitted: seq<MetricsDelta>, k: nat)
    requires EnvOk(env) && EmittedOk(env, w, emitted) && k < |emitted|
    ensures var d := emitted[k];
      && d.workerId == w && d.runId == env.runId && d.sequence == k + 1 < TWO_64
      && d.revision in env.assignments && w in env.assignments[d.revision] && d.revision > 0
      && SnapshotProblem(d) == None
      && (k > 0 ==> emitted[k - 1].sequence == k && emitted[k - 1].revision <= d.revision
                    && (emitted[k - 1].finalForRevision ==> emitted[k - 1].revision < d.revision))
  {
    FewerThanCounter(env, w, emitted);
    hide SnapshotProblem, IdleBetween;
    assert DeltaOk(env, w, emitted[k], k);
    if k > 0 {
      assert Continues(env, w, emitted[k - 1], emitted[k]) && DeltaOk(env, w, emitted[k - 1], k - 1);
    }
  }
}
