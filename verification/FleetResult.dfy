/** The result of a whole legal run: with the completion loop beside the fleet, the
    verdict depends on the measurements alone and covers every active worker. */
module FleetResult {
  import opened Wire
  import opened Snapshots
  import opened Aggregation
  import opened AggregatorHistory
  import opened Coverage
  import opened FleetNode
  import opened FleetRuns
  import opened FleetDelivery
  import opened FleetTheorems
  import opened Reporting
  import Coordination
  import opened Completion
  import opened PassCoverage

  lemma {:induction false} LegalPrefix(f: Fleet, moves: seq<Move>, n: nat)
    requires Legal(f, moves) && n <= |moves|
    ensures Legal(f, moves[..n])
    decreases |moves|
  {
    hide FleetRuns.Possible, Hypotheses, FleetRuns.After;
    if n == |moves| {
      assert moves[..n] == moves;
    } else {
      LegalPrefix(f, moves[..|moves| - 1], n);
      assert moves[..|moves| - 1][..n] == moves[..n];
    }
  }

  /** The later fleet has only received deliveries since; its coordinator is unchanged, and
      makes no revision. */
  ghost predicate OnlyDelivered(f: Fleet, g: Fleet) {
    && g.coord == f.coord && g.clock >= f.clock && g.reconciling.None?
    && |f.messages| <= |g.messages| && g.messages[..|f.messages|] == f.messages
    && Settled(g.messages, |f.messages|, |g.messages|)
  }

  /** The deadline has passed, and no revision that was begun before it is still to be recorded. */
  ghost predicate RunIsOver(f: Fleet) {
    f.coord.revision > 0 && f.clock >= f.coord.deadline && f.reconciling.None?
  }

  /** Past the deadline, with no revision being made, no move makes another. */
  lemma MoveSettles(f: Fleet, g: Fleet, m: Move)
    requires OnlyDelivered(f, g) && FleetRuns.Possible(g, m) && RunIsOver(f)
    ensures OnlyDelivered(f, FleetRuns.Next(g, m))
  {
    hide NodeApplied, NodeFired, Deltas.ContentOf, LoadSplitting.Split, Delivering;
    assert m.Wake? ==> Woken(g) == g;
  }

  lemma {:induction false} DeadlineSettles(start: Fleet, moves: seq<Move>, n: nat)
    requires Legal(start, moves) && n <= |moves| && Legal(start, moves[..n])
    requires RunIsOver(FleetRuns.After(start, moves[..n]))
    ensures OnlyDelivered(FleetRuns.After(start, moves[..n]), FleetRuns.After(start, moves))
    decreases |moves|
  {
    var f := FleetRuns.After(start, moves[..n]);
    hide *;
    if n == |moves| {
      assert moves[..n] == moves;
      DeliveredSinceItself(f);
    } else {
      LastMove(start, moves);
      var init := moves[..|moves| - 1];
      assert init[..n] == moves[..n];
      DeadlineSettles(start, init, n);
      MoveSettles(f, FleetRuns.After(start, init), moves[|moves| - 1]);
    }
  }

  /** Past the deadline only deliveries follow, whatever the run, exactly if no revision is
      still to be recorded. */
  lemma SettlesExactly(f: Fleet)
    requires f.coord.revision > 0 && f.clock >= f.coord.deadline && Fits(EmittedTotal(f))
    ensures f.reconciling.None? <==> forall moves :: Legal(f, moves) ==>
      var g := FleetRuns.After(f, moves);
      |f.messages| <= |g.messages| && Settled(g.messages, |f.messages|, |g.messages|)
  {
    if f.reconciling.None? {
      forall moves | Legal(f, moves)
        ensures var g := FleetRuns.After(f, moves);
          |f.messages| <= |g.messages| && Settled(g.messages, |f.messages|, |g.messages|)
      {
        NoMoveYet(f, moves);
        DeadlineSettles(f, moves, 0);
      }
    } else {
      PublishUnsettles(f);
    }
  }

  lemma NoMoveYet(f: Fleet, moves: seq<Move>)
    requires Legal(f, moves)
    ensures Legal(f, moves[..0]) && FleetRuns.After(f, moves[..0]) == f
  {
    assert moves[..0] == [];
  }

  lemma PublishUnsettles(f: Fleet)
    requires f.reconciling.Some? && Fits(EmittedTotal(f))
    ensures Legal(f, [Publish])
    ensures var g := FleetRuns.After(f, [Publish]); !Settled(g.messages, |f.messages|, |g.messages|)
  {
    PublishingEmitsNothing(f);
    hide EmittedTotal, Fits;
    assert [Publish][..0] == [];
    assert FleetRuns.After(f, [Publish]) == Published(f);
    assert Published(f).messages[|f.messages|].Revision?;
  }

  lemma PublishingEmitsNothing(f: Fleet)
    requires f.reconciling.Some?
    ensures EmittedTotal(Published(f)) == EmittedTotal(f)
  {
    hide Sum, Contents;
    assert EmittedTotals(Published(f)) == EmittedTotals(f);
  }

  lemma DeliveredSinceItself(f: Fleet)
    requires RunIsOver(f)
    ensures OnlyDelivered(f, f)
  {
  }

  lemma LastMove(f: Fleet, moves: seq<Move>)
    requires Legal(f, moves) && moves != []
    ensures var init, last := moves[..|moves| - 1], moves[|moves| - 1];
      && Legal(f, init) && FleetRuns.Possible(FleetRuns.After(f, init), last)
      && FleetRuns.After(f, moves) == FleetRuns.Next(FleetRuns.After(f, init), last)
  {
    hide FleetRuns.Possible, Hypotheses, FleetRuns.Next;
  }

  /** In a legal run every recorded window ends at the run's deadline. */
  lemma FleetHasOneWindow(f: Fleet)
    requires FleetOk(f) && f.coord.revision > 0
    ensures OneWindow(RunOf(f).agg, f.coord.deadline) && FreshRevisions(f.coord.runId, f.messages)
  {
    ViewFleet(f);
    ViewEnv(f);
    var env, agg := EnvOf(f), RunOf(f).agg;
    assert env.deadline == f.coord.deadline && env.revision == f.coord.revision;
    hide FleetOk, EnvOf, RunOf, NodesOk, Coordination.Consistent, AggregatorHistory.Consistent, FreshRevisions, Trim;
    assert EnvOk(env);
    forall w ensures CommonDeadline(agg, w, f.coord.deadline) {
    }
  }

  /** The completion loop watched this very fleet, and reported because the run was
      complete at a check made when the fleet was in the earlier state or later. */
  ghost predicate Concludes(plan: Plan, actions: seq<Action>, f: Fleet, g: Fleet) {
    && Completion.Possible(plan, actions)
    && plan.runId == f.coord.runId
    && var s := Completion.After(plan, actions);
      && s.messages == g.messages
      && s.phase.Reported? && s.phase.exit == Exit.Finished
      && |f.messages| <= s.at.checked
  }

  /** The moments of the result lie after the deadline, so only deliveries come after them. */
  lemma MomentsAreSettled(plan: Plan, actions: seq<Action>, f: Fleet, g: Fleet)
    requires OnlyDelivered(f, g) && Concludes(plan, actions, f, g)
    requires FreshRevisions(plan.runId, g.messages)
    requires OneWindow(RunOf(f).agg, f.coord.deadline)
    ensures var s := Completion.After(plan, actions);
      && s.at.checked <= s.at.sampled <= s.at.listed <= s.at.closed <= |s.messages|
      && Settled(s.messages, s.at.checked, |s.messages|)
      && OneWindow(RunAt(plan, s.messages, s.at.checked).agg, f.coord.deadline)
  {
    EveryWaitIsSound(plan, actions);
    SummaryPassesExactly(plan, actions);
    var s := Completion.After(plan, actions);
    hide Completion.Possible, Completion.After, OneWindow, FreshRevisions, Play, Acceptable, MissingFinals;
    assert RunAt(plan, s.messages, |f.messages|) == RunOf(f);
    DeliveriesAdd(plan, s.messages, |f.messages|, s.at.checked, "");
    StillOneWindow(RunOf(f).agg, RunAt(plan, s.messages, s.at.checked).agg, f.coord.deadline);
  }

  lemma {:induction false} ViolationsGrow(plan: Plan, messages: seq<Message>, n: nat)
    requires n <= |messages| && Play(plan.runId, messages).agg.violations == []
    ensures RunAt(plan, messages, n).agg.violations == []
    decreases |messages|
  {
    if n == |messages| {
      assert messages[..n] == messages;
    } else {
      var k := |messages| - 1;
      ViolationAdded(Play(plan.runId, messages[..k]), messages[k]);
      hide Step, Judge;
      ViolationsGrow(plan, messages[..k], n);
      assert messages[..k][..n] == messages[..n];
    }
  }

  /** The run has accepted all that the worker has emitted so far, in order. */
  ghost predicate HoldsAllOf(run: Run, w: string, n: Node) {
    var h := History(run.log, w);
    && |h| == |n.ctrl.outbound|
    && forall i :: 0 <= i < |h| ==> h[i].delta == n.ctrl.outbound[i]
  }

  /** What the result of a legal run says: it passes exactly when the measurements are
      acceptable, and its snapshot is the sum of accepted deltas among which are all that
      the active workers of the latest revision have ever emitted. */
  ghost predicate ResultOk(plan: Plan, s: Waiter, g: Fleet)
    requires s.phase.Reported? && s.at.sampled <= |s.messages|
  {
    var sampled, latest := RunAt(plan, s.messages, s.at.sampled), RunOf(g).agg.latest;
    && s.phase.summary.metrics == TotalOf(sampled.log)
    && (forall w :: w in latest && latest[w].active ==> w in g.nodes && HoldsAllOf(sampled, w, g.nodes[w]))
    && (s.phase.summary.status == Pass <==>
          Acceptable(s.phase.summary.metrics, plan.thresholds, plan.percentile))
  }

  /** A legal run that completes passes exactly when its measurements are acceptable:
      nothing is ever refused or reported missing, however the reads and the deliveries
      interleave, and the snapshot holds everything its active workers have emitted, even
      by any later moment of the run. */
  lemma LegalRunPassesOnItsMeasurements(
    config: Coordination.Config, runId: string, leadTime: Duration, clock: Time, start: Fleet,
    moves: seq<Move>, n: nat, plan: Plan, actions: seq<Action>)
    requires RunStarts(config, runId, leadTime, clock, start) && Legal(start, moves)
    requires n <= |moves| && Legal(start, moves[..n])
    requires RunIsOver(FleetRuns.After(start, moves[..n]))
    requires Concludes(plan, actions, FleetRuns.After(start, moves[..n]), FleetRuns.After(start, moves))
    ensures var s := Completion.After(plan, actions);
      s.at.sampled <= |s.messages| && ResultOk(plan, s, FleetRuns.After(start, moves))
  {
    hide *;
    var f, g := FleetRuns.After(start, moves[..n]), FleetRuns.After(start, moves);
    StartReaches(config, runId, leadTime, clock, start, moves[..n]);
    StartReaches(config, runId, leadTime, clock, start, moves);
    ReachableIsOk(config, runId, leadTime, clock, f);
    ReachableIsOk(config, runId, leadTime, clock, g);
    DeadlineSettles(start, moves, n);
    SameCoordinator(f, g);
    FleetHasOneWindow(f);
    FleetHasOneWindow(g);
    ResultOfFleet(plan, actions, f, g);
  }

  lemma SameCoordinator(f: Fleet, g: Fleet)
    requires OnlyDelivered(f, g) && RunIsOver(f)
    ensures g.coord == f.coord && f.coord.revision > 0
  {
  }

  lemma StartReaches(config: Coordination.Config, runId: string, leadTime: Duration, clock: Time, start: Fleet, moves: seq<Move>)
    requires RunStarts(config, runId, leadTime, clock, start) && Legal(start, moves)
    ensures Reachable(config, runId, leadTime, clock, FleetRuns.After(start, moves))
  {
    hide RunStarts, Legal, FleetRuns.After;
  }

  lemma NothingRefused(f: Fleet)
    requires FleetOk(f)
    ensures RunOf(f).agg.violations == []
  {
    hide EnvOk, FreshRevisions, Play, NodesOk;
  }

  lemma ResultOfFleet(plan: Plan, actions: seq<Action>, f: Fleet, g: Fleet)
    requires OnlyDelivered(f, g) && Concludes(plan, actions, f, g) && FleetOk(g) && g.coord.revision > 0
    requires FreshRevisions(g.coord.runId, g.messages)
    requires OneWindow(RunOf(f).agg, f.coord.deadline)
    ensures var s := Completion.After(plan, actions);
      s.at.sampled <= |s.messages| && ResultOk(plan, s, g)
  {
    var s := Completion.After(plan, actions);
    assert plan.runId == f.coord.runId == g.coord.runId && s.messages == g.messages;
    assert s.phase.Reported? && s.phase.exit == Exit.Finished;
    hide Completion.Possible, Completion.After, Play, TotalOf, SameActiveHistories, OneWindow, FleetOk, Complete,
      Settled, FreshRevisions, AggregatorHistory.Consistent, OnlyDelivered, Concludes, History, Concluded, MissingFinals, Acceptable;
    MomentsAreSettled(plan, actions, f, g);
    assert s.messages[..|s.messages|] == s.messages;
    CompleteExitCovers(plan, actions, f.coord.deadline, |s.messages|);
    SummaryPassesExactly(plan, actions);
    SampledTotal(plan, s.messages, s.at.sampled);
    NothingRefused(g);
    ViolationsGrow(plan, s.messages, s.at.listed);
    forall w | w in RunOf(g).agg.latest && RunOf(g).agg.latest[w].active
      ensures w in g.nodes && HoldsAllOf(RunAt(plan, s.messages, s.at.sampled), w, g.nodes[w])
    {
      FinishedHoldsAll(g, w, RunAt(plan, s.messages, s.at.sampled));
    }
  }

  lemma SampledTotal(plan: Plan, messages: seq<Message>, n: nat)
    requires n <= |messages|
    ensures RunAt(plan, messages, n).agg.snapshot == TotalOf(RunAt(plan, messages, n).log)
  {
    EveryPlayIsConsistent(plan.runId, messages[..n]);
    hide WorkerConsistent, FinishBacked, LatestRecorded, TotalOf, Play;
  }

  lemma FinishedHoldsAll(g: Fleet, w: string, sampled: Run)
    requires FleetOk(g) && g.coord.revision > 0 && Complete(RunOf(g).agg) && SameActiveHistories(sampled, RunOf(g))
    requires w in RunOf(g).agg.latest && RunOf(g).agg.latest[w].active
    ensures w in g.nodes && HoldsAllOf(sampled, w, g.nodes[w])
  {
    hide FleetOk, RunOf, EnvOf, History, NodesOk, CenterOk, AggregatorHistory.Consistent;
    FinishedHasDelivered(g, w);
    ViewFleet(g);
    AssertWorker(EnvOf(g), RunOf(g), g.order, g.nodes, w);
  }
}
