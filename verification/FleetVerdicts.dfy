/** Concrete results: a legal run that passes, and one that fails on acceptable measurements
    because a revision is recorded while the result is being read. */
module FleetVerdicts {
  import opened Wire
  import opened CountMaps
  import opened Snapshots
  import opened SortedStrings
  import opened Assignments
  import opened Coordination
  import opened Aggregation
  import opened AggregatorHistory
  import opened RunControl
  import opened Deltas
  import opened FleetNode
  import opened FleetRuns
  import opened FleetDelivery
  import opened FleetTheorems
  import opened FleetExamples
  import opened Reporting
  import Completion
  import opened FleetResult

  const REPORT := Final("a", 1, 1, STARTS, ENDS, ONE)

  /** Worker a after its deadline step, with the single request reported. */
  function Measured(): Node {
    Node([], Controller("a", SECOND, Some(Given(1, 1)), true, false, STARTS, 1, ENDS, false, false, [REPORT]),
         0, 0, Some(STARTS), [SINGLE])
  }

  lemma AMeasures()
    ensures NodeFired(Collects("a", 0, 1, STARTS), SINGLE) == Measured()
    ensures Little("a", Measured()) && Little("a", Measured().(delivered := 1)) && Decoded(REPORT) == ONE
  {
    hide ContentOf, Flush;
    var c := Collects("a", 0, 1, STARTS).ctrl;
    IntervalContents();
    FinalFlush(c.(scheduling := false), 1, 1, ENDS, ONE);
    assert [] + [REPORT] == [REPORT] && [] + [SINGLE] == [SINGLE];
  }

  // ----- A run of one worker ------------------------------------------------------------------

  function Started(): seq<Move> {
    [Join("a"), Wake, Publish] + [Take("a", STARTS, NOTHING)]
  }

  function Collecting(): Fleet {
    Alone("a").(clock := STARTS, nodes := map["a" := Collects("a", 0, 1, STARTS)])
  }

  lemma StartedLeads()
    ensures Leads(Started(), Collecting()) && ReportsLittle(Collecting())
  {
    hide Leads, NodeApplied;
    FirstMoves("a");
    FirstTaken("a", 0, 1, STARTS);
    Takes([Join("a"), Wake, Publish], Alone("a"), "a", STARTS, Collects("a", 0, 1, STARTS));
    assert Alone("a").nodes["a" := Collects("a", 0, 1, STARTS)] == Collecting().nodes;
  }

  function Simple(): seq<Move> {
    Started() + [Advance(ENDS)] + [Fire("a", SINGLE)]
  }

  function Simply(): Fleet {
    Alone("a").(clock := ENDS, nodes := map["a" := Measured()])
  }

  lemma SimpleLeads()
    ensures Leads(Simple(), Simply()) && ReportsLittle(Simply())
  {
    hide Leads, NodeFired, Little;
    StartedLeads();
    Advances(Started(), Collecting(), ENDS);
    AMeasures();
    IntervalContents();
    Fires(Started() + [Advance(ENDS)], Collecting().(clock := ENDS), "a", SINGLE, Measured());
    assert Collecting().nodes["a" := Measured()] == Simply().nodes;
  }

  // ----- What the aggregator makes of it --------------------------------------------------------

  const FIRST := Revision(1, Single("a"))
  const REPORTED := Delivery("a", Some(REPORT))

  /** The aggregator after the revision and the report. */
  ghost function Both2(): Run {
    Play("r", [FIRST, REPORTED])
  }

  lemma ReportIsGranted()
    ensures Judge(Play("r", [FIRST]).agg, "a", Some(REPORT)).Granted?
  {
    hide FleetOk, Leads, Play, Judge, Fits, EmittedTotal, Little;
    SimpleLeads();
    ExampleIsReachable(Simple(), Simply());
    LittleFits(Simply());
    SimpleSeen();
    NextIsGranted(Simply(), "a");
  }

  lemma SimpleSeen()
    ensures RunOf(Simply()) == Play("r", [FIRST])
    ensures HasPending(Simply(), "a") && Pending(Simply().nodes["a"]) == REPORT
  {
    hide Play;
  }

  lemma ReportIsAccepted()
    ensures var run := Both2();
      && run.agg.runId == "r" && run.agg.latest == map["a" := Window(1, STARTS, ENDS, true)]
      && run.agg.snapshot == ONE && run.agg.violations == [] && Complete(run.agg)
      && "a" in run.agg.workers && run.agg.workers["a"].finalRevision == 1
  {
    hide Play, Judge, Step, Decoded, Add, Complete;
    FirstRecorded();
    ReportIsGranted();
    AMeasures();
    PlayAppend("r", [FIRST], REPORTED);
    assert [FIRST] + [REPORTED] == [FIRST, REPORTED];
    StepGranted(Play("r", [FIRST]), "a", REPORT);
    AddLaws(ONE, EMPTY, EMPTY);
    OneFinished(Both2().agg);
  }

  lemma OneFinished(agg: Aggregate)
    requires agg.latest == map["a" := Window(1, STARTS, ENDS, true)]
    requires "a" in agg.workers && agg.workers["a"].finalRevision == 1
    ensures Complete(agg)
  {
  }

  lemma FirstRecorded()
    ensures var run := Play("r", [FIRST]);
      && run.log == [] && run.agg.workers == map[] && run.agg.snapshot == EMPTY && run.agg.violations == []
      && run.agg.runId == "r" && run.agg.latest == map["a" := Window(1, STARTS, ENDS, true)]
  {
    IsGiven();
    assert [FIRST][..0] == [];
    assert Play("r", []) == Run(NewAggregate("r"), []);
    assert WindowsOf(1, Single("a")) == map["a" := Window(1, STARTS, ENDS, true)];
  }

  // ----- The loop that watches --------------------------------------------------------------------

  const WHEN := RunWindow(STARTS, ENDS)

  function Reading(): seq<Completion.Action> {
    [Completion.Receive(FIRST)] + [Completion.Receive(REPORTED)] + [Completion.Begin(WHEN)] + [Completion.ReachDeadline]
    + [Completion.Check] + [Completion.ReadSnapshot] + [Completion.ReadViolations]
  }

  /** The loop after its completion check and the first two reads. */
  ghost function HasRead(): Completion.Waiter {
    Completion.Waiter([FIRST, REPORTED], Both2(), Completion.ReadingMissing(Completion.Finished, ONE, []),
                      Completion.Moments(2, 2, 2, 0, 0), Some(WHEN))
  }

  lemma ReceivesBoth(plan: Completion.Plan)
    requires plan.runId == "r"
    ensures Completion.Watches(plan, [Completion.Receive(FIRST)] + [Completion.Receive(REPORTED)],
                    Completion.NewWaiter(plan).(messages := [FIRST, REPORTED], run := Both2()))
  {
    hide Completion.Watches, Step;
    Completion.NothingYet(plan);
    Completion.Acts(plan, [], Completion.NewWaiter(plan), Completion.Receive(FIRST));
    var first := Completion.NewWaiter(plan).(messages := [FIRST], run := Play("r", [FIRST]));
    assert [] + [FIRST] == [FIRST] && [FIRST] + [REPORTED] == [FIRST, REPORTED];
    PlayAppend("r", [], FIRST);
    PlayAppend("r", [FIRST], REPORTED);
    assert [] + [Completion.Receive(FIRST)] == [Completion.Receive(FIRST)];
    Completion.Acts(plan, [Completion.Receive(FIRST)], first, Completion.Receive(REPORTED));
  }

  lemma ReadsTwice(plan: Completion.Plan)
    requires plan.runId == "r"
    ensures Completion.Watches(plan, Reading(), HasRead())
  {
    hide Completion.Watches, Both2, Complete;
    ReportIsAccepted();
    ReceivesBoth(plan);
    var before := [Completion.Receive(FIRST)] + [Completion.Receive(REPORTED)];
    var s0 := Completion.NewWaiter(plan).(messages := [FIRST, REPORTED], run := Both2());
    Completion.Acts(plan, before, s0, Completion.Begin(WHEN));
    s0 := s0.(window := Some(WHEN));
    var s1 := s0.(phase := Completion.AwaitingDeadline);
    Completion.Acts(plan, before + [Completion.Begin(WHEN)], s1, Completion.ReachDeadline);
    var s2 := s0.(phase := Completion.Checking);
    Completion.Acts(plan, before + [Completion.Begin(WHEN)] + [Completion.ReachDeadline], s2, Completion.Check);
    var s3 := s0.(phase := Completion.ReadingSnapshot(Completion.Finished), at := Completion.Moments(2, 0, 0, 0, 0));
    Completion.Acts(plan, before + [Completion.Begin(WHEN)] + [Completion.ReachDeadline] + [Completion.Check], s3, Completion.ReadSnapshot);
    var s4 := s0.(phase := Completion.ReadingViolations(Completion.Finished, ONE), at := Completion.Moments(2, 2, 0, 0, 0));
    Completion.Acts(plan, before + [Completion.Begin(WHEN)] + [Completion.ReachDeadline] + [Completion.Check] + [Completion.ReadSnapshot], s4,
         Completion.ReadViolations);
  }

  // ----- A run that passes --------------------------------------------------------------------------

  function Passing(): seq<Completion.Action> {
    Reading() + [Completion.ReadMissing([])]
  }

  /** A legal run of one worker and one request, and the loop that watches it: the result
      is PASS, with that request. */
  lemma SimpleRunPasses(plan: Completion.Plan)
    requires plan.runId == "r" && plan.thresholds == Thresholds(0, 0.0)
    ensures Leads(Simple() + [Deliver("a")], Delivered()) && RunIsOver(Delivered())
    ensures Concludes(plan, Passing(), Delivered(), Delivered())
    ensures var s := Completion.After(plan, Passing());
      s.phase.summary.status == Pass && s.phase.summary.metrics == ONE
  {
    hide *;
    DeliversTheReport();
    PassReported(plan);
    OneIsEnough(plan);
    Completion.WatchesMeans(plan, Passing(), HasReported(plan, []));
    PassConcludes(plan, Delivered());
  }

  /** The loop once it has reported, with the missing workers it read. */
  ghost function HasReported(plan: Completion.Plan, missing: seq<string>): Completion.Waiter {
    HasRead().(phase := Completion.Reported(Completion.Finished, Completion.SummaryOf(plan, ONE, [], missing)),
               at := Completion.Moments(2, 2, 2, 2, 0))
  }

  lemma PassReported(plan: Completion.Plan)
    requires plan.runId == "r"
    ensures Completion.Watches(plan, Passing(), HasReported(plan, []))
  {
    hide Both2, Complete, Completion.Watches, Completion.SummaryOf, Completion.ListsMissing, Reading;
    ReportIsAccepted();
    ReadsTwice(plan);
    NoneIsMissing(Both2().agg);
    Completion.Acts(plan, Reading(), HasRead(), Completion.ReadMissing([]));
  }

  /** The single request is acceptable, so only integrity decides. */
  lemma OneIsEnough(plan: Completion.Plan)
    requires plan.thresholds == Thresholds(0, 0.0)
    ensures Acceptable(ONE, plan.thresholds, plan.percentile)
    ensures Completion.SummaryOf(plan, ONE, [], []).status == Pass && Completion.SummaryOf(plan, ONE, [], []).metrics == ONE
    ensures Completion.SummaryOf(plan, ONE, [], ["a"]).status == Fail && Completion.SummaryOf(plan, ONE, [], ["a"]).metrics == ONE
  {
    hide Concluded;
    ConclusionPasses(plan.name, plan.duration, ONE, plan.thresholds, plan.percentile, [], []);
    ConclusionPasses(plan.name, plan.duration, ONE, plan.thresholds, plan.percentile, [], ["a"]);
  }

  lemma PassConcludes(plan: Completion.Plan, f: Fleet)
    requires plan.runId == "r" && Completion.Watches(plan, Passing(), HasReported(plan, []))
    requires f.messages == [FIRST, REPORTED] && f.coord.runId == "r"
    ensures Concludes(plan, Passing(), f, f)
    ensures Completion.After(plan, Passing()).phase.summary == Completion.SummaryOf(plan, ONE, [], [])
  {
    hide Completion.Possible, Completion.After, Both2, Completion.SummaryOf;
  }

  function Delivered(): Fleet {
    Simply().(messages := [FIRST, REPORTED], nodes := map["a" := Measured().(delivered := 1)])
  }

  lemma DeliversTheReport()
    ensures Leads(Simple() + [Deliver("a")], Delivered()) && RunIsOver(Delivered())
    ensures Delivered().messages == [FIRST, REPORTED] && Delivered().coord.runId == "r"
  {
    hide Leads, Little;
    SimpleLeads();
    AMeasures();
    Delivers(Simple(), Simply(), "a");
    assert [FIRST] + [REPORTED] == [FIRST, REPORTED];
    assert Simply().nodes["a" := Measured().(delivered := 1)] == Delivered().nodes;
  }

  lemma NoneIsMissing(agg: Aggregate)
    requires Complete(agg)
    ensures Completion.ListsMissing([], agg)
  {
    var none: seq<string> := [];
    assert multiset(none) == multiset{};
  }

  // ----- A revision recorded while the result is read ---------------------------------------------

  const SECOND_REVISION := Revision(2, Both())

  function Interrupted(): seq<Move> {
    Started() + [Join("b")] + [Wake] + [Advance(ENDS)] + [Fire("a", SINGLE)] + [Deliver("a")]
  }

  /** Worker a has finished the first revision and is delivered; the coordinator has read the
      clock before the deadline and is about to record the second. */
  function Unrecorded(): Fleet {
    Fleet(ENDS, Coord(1), Some(Reconciled(Coord(2), Both())), [FIRST, REPORTED], ["a", "b"],
          map["a" := Measured().(delivered := 1), "b" := NewNode("b", 1)])
  }

  lemma InterruptedLeads()
    ensures Leads(Interrupted(), Unrecorded()) && ReportsLittle(Unrecorded())
  {
    hide Leads, NodeFired, Reconcile, Little;
    StartedLeads();
    Joins(Started(), Collecting(), "b");
    var joined := Collecting().(order := ["a", "b"], nodes := map["a" := Collects("a", 0, 1, STARTS), "b" := NewNode("b", 1)]);
    assert ["a"] + ["b"] == ["a", "b"];
    assert Collecting().nodes["b" := NewNode("b", 1)] == joined.nodes;
    SecondRevision(["a", "b"], STARTS);
    Wakes(Started() + [Join("b")], joined, Coord(2), Both());
    var woken := joined.(reconciling := Some(Reconciled(Coord(2), Both())));
    Advances(Started() + [Join("b")] + [Wake], woken, ENDS);
    AMeasures();
    IntervalContents();
    Fires(Started() + [Join("b")] + [Wake] + [Advance(ENDS)], woken.(clock := ENDS), "a", SINGLE, Measured());
    var fired := woken.(clock := ENDS, nodes := woken.nodes["a" := Measured()]);
    Delivers(Started() + [Join("b")] + [Wake] + [Advance(ENDS)] + [Fire("a", SINGLE)], fired, "a");
    assert [FIRST] + [REPORTED] == [FIRST, REPORTED];
    assert fired.nodes["a" := Measured().(delivered := 1)] == Unrecorded().nodes;
  }

  function Failing(): seq<Completion.Action> {
    Reading() + [Completion.Receive(SECOND_REVISION)] + [Completion.ReadMissing(["a"])]
  }

  /** The aggregator after the second revision as well. */
  lemma NowMissing()
    ensures var run := Step(Both2(), SECOND_REVISION);
      MissingFinals(run.agg) == {"a"} && Completion.ListsMissing(["a"], run.agg)
  {
    ReportIsAccepted();
    IsGiven();
    hide Play;
    var run := Step(Both2(), SECOND_REVISION);
    assert WindowsOf(2, Both()) == map["a" := Window(2, STARTS, ENDS, true), "b" := Window(2, STARTS, ENDS, false)];
    assert run.agg.latest == WindowsOf(2, Both()) && run.agg.workers == Both2().agg.workers;
    assert multiset(["a"]) == multiset{"a"};
  }

  /** The state of the loop when it reports. */
  ghost function HasFailed(plan: Completion.Plan): Completion.Waiter {
    Completion.Waiter([FIRST, REPORTED, SECOND_REVISION], Step(Both2(), SECOND_REVISION),
                      Completion.Reported(Completion.Finished, Completion.SummaryOf(plan, ONE, [], ["a"])),
                      Completion.Moments(2, 2, 2, 3, 0), Some(WHEN))
  }

  lemma FailReported(plan: Completion.Plan)
    requires plan.runId == "r"
    ensures Completion.Watches(plan, Failing(), HasFailed(plan))
  {
    hide Both2, Step, Completion.Watches, Completion.SummaryOf, Completion.ListsMissing, MissingFinals, Reading;
    ReadsTwice(plan);
    NowMissing();
    Completion.Acts(plan, Reading(), HasRead(), Completion.Receive(SECOND_REVISION));
    assert [FIRST, REPORTED] + [SECOND_REVISION] == [FIRST, REPORTED, SECOND_REVISION];
    var received := HasRead().(messages := [FIRST, REPORTED, SECOND_REVISION], run := Step(Both2(), SECOND_REVISION));
    Completion.Acts(plan, Reading() + [Completion.Receive(SECOND_REVISION)], received, Completion.ReadMissing(["a"]));
  }

  ghost function TooLate(): Fleet {
    Published(Unrecorded())
  }

  /** A legal run in which every worker has finished, delivered and applied nothing late, and
      the loop that watches it finds it complete. A revision made before the deadline and
      recorded between its reads makes the result a failure on acceptable measurements. */
  lemma LateRecordFailsTheRun(plan: Completion.Plan)
    requires plan.runId == "r" && plan.thresholds == Thresholds(0, 0.0)
    ensures Leads(Interrupted(), Unrecorded()) && Leads(Interrupted() + [Publish], TooLate())
    ensures Unrecorded().clock >= Unrecorded().coord.deadline && Unrecorded().coord.revision > 0
    ensures Concludes(plan, Failing(), Unrecorded(), TooLate())
    ensures var s := Completion.After(plan, Failing());
      && s.phase.summary.status == Fail && s.phase.summary.metrics == ONE
      && Acceptable(s.phase.summary.metrics, plan.thresholds, plan.percentile)
  {
    hide *;
    InterruptedLeads();
    PublishesLate();
    FailReported(plan);
    OneIsEnough(plan);
    UnrecordedFacts();
    FailConcludes(plan, Unrecorded(), TooLate());
  }

  lemma UnrecordedFacts()
    ensures Unrecorded().clock >= Unrecorded().coord.deadline && Unrecorded().coord.revision > 0
    ensures Unrecorded().messages == [FIRST, REPORTED] && Unrecorded().coord.runId == "r"
    ensures TooLate().messages == [FIRST, REPORTED, SECOND_REVISION]
  {
    assert [FIRST, REPORTED] + [SECOND_REVISION] == [FIRST, REPORTED, SECOND_REVISION];
  }

  lemma FailConcludes(plan: Completion.Plan, f: Fleet, g: Fleet)
    requires plan.runId == "r" && Completion.Watches(plan, Failing(), HasFailed(plan))
    requires f.messages == [FIRST, REPORTED] && f.coord.runId == "r" && g.messages == [FIRST, REPORTED, SECOND_REVISION]
    ensures Concludes(plan, Failing(), f, g)
    ensures Completion.After(plan, Failing()).phase.summary == Completion.SummaryOf(plan, ONE, [], ["a"])
  {
    hide Completion.Possible, Completion.After, Both2, Completion.SummaryOf, Step;
  }

  lemma PublishesLate()
    requires Leads(Interrupted(), Unrecorded()) && ReportsLittle(Unrecorded())
    ensures Leads(Interrupted() + [Publish], TooLate())
  {
    hide Leads, Little;
    Publishes(Interrupted(), Unrecorded());
  }
}
