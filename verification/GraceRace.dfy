/** The one way a passing result can miss an accepted delta: the grace period ends, the
    snapshot is read, and only then the last final arrives. */
module GraceRace {
  import opened Wire
  import opened CountMaps
  import opened Snapshots
  import opened Aggregation
  import opened AggregatorHistory
  import opened Reporting
  import opened Completion
  import LoadSplitting
  import Coordination
  import opened FleetExamples

  const START: Time := UNIX_EPOCH

  /** One virtual user for two seconds. */
  const CONFIG := Coordination.Config(TARGET, LoadSplitting.Load(ConstantVUs, 1, 0, 0, 2 * SECOND, 0), 1)

  function TwoSeconds(): LoadAssignment {
    LoadAssignment("r", 1, Some(TARGET), Some(Users(1)), Some(START), Some(START + 2 * SECOND))
  }

  /** The coordinator issues exactly this to the only worker that has joined. */
  lemma TwoSecondsIsIssued()
    ensures Coordination.ValidConfig(CONFIG) && Coordination.NewCoordinator(CONFIG, "r", 1).Some?
    ensures var coord := Coordination.NewCoordinator(CONFIG, "r", 1).value;
      Coordination.Reconcile(coord, ["w"], START - 1).1 == Coordination.Issued(map["w" := TwoSeconds()])
  {
    NamesAreUsable();
    assert Trim("w") == "w";
    assert Coordination.ValidConfig(CONFIG);
    hide LoadSplitting.Split, Trim;
    SingleSlice(CONFIG.load, "w");
    var slices := LoadSplitting.Split(CONFIG.load, ["w"]).slices;
    var coord := Coordination.Coordinator(CONFIG, "r", 1, 1, START, START + 2 * SECOND, []);
    assert Coordination.AssignmentsFor(coord, slices) == map["w" := TwoSeconds()];
  }

  /** One successful request in an interval. */
  function OneRequest(sequence: nat, start: Time, end: Time, final: bool): MetricsDelta {
    MetricsDelta("w", "r", 1, sequence, Some(start), Some(end),
                 Some(Counters(1, 1, 0, 0, 0, 0, 0, 0, 0, map[200 := 1])), HdrV2Compressed,
                 Encoded(map[1000 := 1]), final)
  }

  function First(): MetricsDelta {
    OneRequest(1, START, START + SECOND, false)
  }

  function Last(): MetricsDelta {
    OneRequest(2, START + SECOND, START + 2 * SECOND, true)
  }

  const ISSUED := Revision(1, map["w" := TwoSeconds()])
  const EARLY := Delivery("w", Some(First()))
  const LATE := Delivery("w", Some(Last()))

  const WHEN := Coordination.RunWindow(START, START + 2 * SECOND)

  /** Up to the read of the snapshot, after the grace period. */
  function Sampling(): seq<Action> {
    [Receive(ISSUED)] + [Receive(EARLY)] + [Begin(WHEN)] + [ReachDeadline] + [Check] + [ExpireGrace] + [ReadSnapshot]
  }

  function Race(): seq<Action> {
    Sampling() + [Receive(LATE)] + [ReadViolations] + [ReadMissing([])]
  }

  lemma OneOf(k: int)
    ensures Total(map[k := 1]) == 1
  {
    TotalOfNothing();
    TotalUpdate(map[], k, 1);
  }

  lemma DeltaIsSound(d: MetricsDelta)
    requires d == First() || d == Last()
    ensures SnapshotProblem(d) == None
  {
    OneOf(200);
    OneOf(1000);
  }

  function Recorded(): Aggregate {
    WithRevision(NewAggregate("r"), 1, map["w" := TwoSeconds()])
  }

  ghost predicate Small(s: Snapshot) {
    && (forall i :: 0 <= i < 9 ==> Values(s.counters)[i] <= 1)
    && (forall code :: code in s.counters.statusCodes ==> s.counters.statusCodes[code] <= 1)
    && (forall micros :: micros in s.latencies ==> micros == 1000)
  }

  lemma SmallSumFits(a: Snapshot, b: Snapshot)
    requires Small(a) && Small(b)
    ensures Merged([a, b]).Some?
  {
    var both := Add(a, b);
    forall i | 0 <= i < 9 ensures Values(both.counters)[i] <= 2 {
      assert Values(both.counters)[i] == Values(a.counters)[i] + Values(b.counters)[i];
    }
    forall code | code in both.counters.statusCodes ensures both.counters.statusCodes[code] <= 2 {
      assert At(a.counters.statusCodes, code) <= 1 && At(b.counters.statusCodes, code) <= 1;
    }
    assert Fits(both);
    hide Add, Fits;
    SumSmall(a, b);
  }

  lemma DeltaIsSmall(d: MetricsDelta)
    requires d == First() || d == Last()
    ensures Small(Decoded(d)) && Small(EMPTY)
  {
  }

  const WINDOW := Window(1, START, START + 2 * SECOND, true)

  lemma RecordedState()
    ensures var a := Recorded();
      && a.runId == "r" && a.snapshot == EMPTY && a.workers == map[] && a.violations == []
      && a.assignments == map[1 := map["w" := WINDOW]] && a.latest == map["w" := WINDOW]
  {
    assert WindowOf(1, TwoSeconds()) == WINDOW;
    assert WindowsOf(1, map["w" := TwoSeconds()]) == map["w" := WINDOW];
  }

  lemma IntervalsPass(contiguous: bool)
    ensures IntervalProblem(First(), WINDOW, 0, contiguous, false) == None
    ensures IntervalProblem(Last(), WINDOW, START + SECOND, contiguous, false) == None
  {
    assert Sub(START + SECOND, START) == SECOND;
    assert Sub(START + 2 * SECOND, START + SECOND) == SECOND;
  }

  lemma FirstIsGranted()
    ensures Judge(Recorded(), "w", Some(First())).Granted?
  {
    hide SnapshotProblem, Merged, Decoded, Recorded, RequiresContiguous, IntervalProblem, Trim, Small;
    RecordedState();
    DeltaIsSound(First());
    DeltaIsSmall(First());
    SmallSumFits(EMPTY, Decoded(First()));
    IntervalsPass(RequiresContiguous(Recorded().assignments, "w", 0, 1));
    NameIsTrimmed();
  }

  lemma NameIsTrimmed()
    ensures Trim("w") == "w"
  {
  }

  /** The aggregator once the first delta is in. */
  function AfterFirst(): Aggregate {
    Committed(Recorded(), "w", First())
  }

  lemma StateAfterFirst()
    ensures var state := StateOf(AfterFirst(), "w");
      && state == WorkerState(1, Some(First()), START + SECOND, 1, 0, 0, Decoded(First()))
      && AfterFirst().snapshot == Decoded(First())
      && AfterFirst().latest == Recorded().latest && AfterFirst().assignments == Recorded().assignments
      && AfterFirst().runId == "r"
  {
    hide Add, Decoded, Recorded;
    RecordedState();
    AddLaws(Decoded(First()), EMPTY, EMPTY);
  }

  lemma LastIsGranted()
    ensures Judge(AfterFirst(), "w", Some(Last())).Granted?
  {
    hide SnapshotProblem, Merged, Decoded, AfterFirst, Recorded, StateOf, RequiresContiguous, IntervalProblem, Trim, Small;
    DeltaIsSound(Last());
    DeltaIsSmall(Last());
    DeltaIsSmall(First());
    RecordedState();
    StateAfterFirst();
    SmallSumFits(Decoded(First()), Decoded(Last()));
    IntervalsPass(RequiresContiguous(AfterFirst().assignments, "w", 1, 1));
    NameIsTrimmed();
  }

  function AfterLast(): Aggregate {
    Committed(AfterFirst(), "w", Last())
  }

  lemma LastFinishes()
    ensures MissingFinals(AfterFirst()) == {"w"} && MissingFinals(AfterLast()) == {}
    ensures AfterLast().violations == []
  {
    RecordedState();
    StateAfterFirst();
    hide Add, Decoded, Recorded;
  }

  lemma FirstStep()
    ensures Step(Run(Recorded(), []), Delivery("w", Some(First()))) == Run(AfterFirst(), [Entry("w", First(), WINDOW)])
  {
    FirstIsGranted();
    RecordedState();
    hide Judge, Recorded, Add, Decoded, Advanced;
  }

  lemma LastStep(log: seq<Entry>)
    ensures Step(Run(AfterFirst(), log), Delivery("w", Some(Last()))) == Run(AfterLast(), log + [Entry("w", Last(), WINDOW)])
  {
    LastIsGranted();
    StateAfterFirst();
    RecordedState();
    hide Judge, Recorded, Add, Decoded, Advanced, AfterFirst;
  }

  /** The loop with what it has received, before it starts. */
  ghost function Received(messages: seq<Message>, run: Run): Waiter {
    Waiter(messages, run, AwaitingStart, Moments(0, 0, 0, 0, 0), None)
  }

  const BEFORE := [Entry("w", First(), WINDOW)]
  const AFTER := [Entry("w", First(), WINDOW), Entry("w", Last(), WINDOW)]

  lemma RaceStarts(plan: Plan)
    requires plan.runId == "r"
    ensures NewWaiter(plan) == Received([], Run(NewAggregate("r"), []))
    ensures Step(Run(NewAggregate("r"), []), ISSUED) == Run(Recorded(), [])
  {
  }

  lemma RaceReceives(plan: Plan)
    requires plan.runId == "r"
    ensures Watches(plan, [Receive(ISSUED)] + [Receive(EARLY)], Received([ISSUED, EARLY], Run(AfterFirst(), BEFORE)))
  {
    hide Watches, Step, Recorded, AfterFirst, NewWaiter;
    NothingYet(plan);
    RaceStarts(plan);
    FirstStep();
    Acts(plan, [], Received([], Run(NewAggregate("r"), [])), Receive(ISSUED));
    assert [] + [ISSUED] == [ISSUED] && [ISSUED] + [EARLY] == [ISSUED, EARLY];
    assert [] + [Receive(ISSUED)] == [Receive(ISSUED)];
    Acts(plan, [Receive(ISSUED)], Received([ISSUED], Run(Recorded(), [])), Receive(EARLY));
  }

  /** The state when the snapshot has been read. */
  ghost function Sampled(): Waiter {
    Received([ISSUED, EARLY], Run(AfterFirst(), BEFORE)).(
      phase := ReadingViolations(GraceExpired, Decoded(First())), at := Moments(0, 2, 0, 0, 0), window := Some(WHEN))
  }

  lemma RaceSamples(plan: Plan)
    requires plan.runId == "r"
    ensures Watches(plan, Sampling(), Sampled())
  {
    hide Watches, AfterFirst, MissingFinals, Decoded;
    RaceReceives(plan);
    LastFinishes();
    StateAfterFirst();
    var actions, s := [Receive(ISSUED)] + [Receive(EARLY)], Received([ISSUED, EARLY], Run(AfterFirst(), BEFORE));
    Acts(plan, actions, s, Begin(WHEN));
    s := s.(window := Some(WHEN));
    Acts(plan, actions + [Begin(WHEN)], s.(phase := AwaitingDeadline), ReachDeadline);
    Acts(plan, actions + [Begin(WHEN)] + [ReachDeadline], s.(phase := Checking), Check);
    Acts(plan, actions + [Begin(WHEN)] + [ReachDeadline] + [Check], s.(phase := Blocked), ExpireGrace);
    Acts(plan, actions + [Begin(WHEN)] + [ReachDeadline] + [Check] + [ExpireGrace],
         s.(phase := ReadingSnapshot(GraceExpired)), ReadSnapshot);
  }

  /** The state at the end. */
  ghost function HasReported(summary: Summary): Waiter {
    Sampled().(messages := [ISSUED, EARLY, LATE], run := Run(AfterLast(), AFTER), phase := Reported(GraceExpired, summary),
               at := Moments(0, 2, 3, 3, 0))
  }

  /** The race runs to its end: every action is possible when it is taken. */
  lemma RaceEnds(plan: Plan)
    requires plan.runId == "r"
    ensures Watches(plan, Race(), HasReported(SummaryOf(plan, Decoded(First()), [], [])))
  {
    hide Watches, Step, AfterFirst, AfterLast, MissingFinals, Decoded, SummaryOf, Sampling;
    RaceSamples(plan);
    LastStep(BEFORE);
    LastFinishes();
    Acts(plan, Sampling(), Sampled(), Receive(LATE));
    assert [ISSUED, EARLY] + [LATE] == [ISSUED, EARLY, LATE] && BEFORE + [Entry("w", Last(), WINDOW)] == AFTER;
    var s := Sampled().(messages := [ISSUED, EARLY, LATE], run := Run(AfterLast(), AFTER));
    Acts(plan, Sampling() + [Receive(LATE)], s, ReadViolations);
    NoneMissing();
    hide ListsMissing;
    Acts(plan, Sampling() + [Receive(LATE)] + [ReadViolations],
         s.(phase := ReadingMissing(GraceExpired, Decoded(First()), []), at := Moments(0, 2, 3, 0, 0)), ReadMissing([]));
  }

  lemma NoneMissing()
    ensures ListsMissing([], AfterLast())
  {
    LastFinishes();
    hide AfterLast;
    var none: seq<string> := [];
    assert multiset(none) == multiset{};
  }

  /** PASS is reported although the snapshot lacks a delta that was accepted as the
      worker's final before the result was out. */
  lemma GraceMayMissADelta(plan: Plan)
    requires plan.runId == "r" && plan.thresholds == Thresholds(0, 0.0)
    ensures Possible(plan, Race())
    ensures var s := After(plan, Race());
      && s.phase.Reported? && s.phase.exit == GraceExpired && s.phase.summary.status == Pass
      && s.phase.summary.metrics.counters.requests == 1
      && s.run.agg.snapshot.counters.requests == 2
      && |History(s.run.log, "w")| == 2 && Complete(s.run.agg) && s.run.agg.violations == []
  {
    hide Watches, Possible, After, AfterLast, SummaryOf, MissingFinals, History, Decoded, Race;
    RaceEnds(plan);
    LastFinishes();
    RaceSummary(plan);
    BothRequests();
    BothAreInHistory();
    WatchesMeans(plan, Race(), HasReported(SummaryOf(plan, Decoded(First()), [], [])));
  }

  lemma RaceSummary(plan: Plan)
    requires plan.thresholds == Thresholds(0, 0.0)
    ensures var summary := SummaryOf(plan, Decoded(First()), [], []);
      summary.status == Pass && summary.metrics.counters.requests == 1
  {
    hide Concluded;
    ConclusionPasses(plan.name, plan.duration, Decoded(First()), plan.thresholds, plan.percentile, [], []);
  }

  lemma BothRequests()
    ensures AfterLast().snapshot.counters.requests == 2
  {
    StateAfterFirst();
    hide AfterFirst, Plus, Advanced;
  }

  lemma BothAreInHistory()
    ensures var log := [Entry("w", First(), WINDOW), Entry("w", Last(), WINDOW)]; |History(log, "w")| == 2
  {
    var log := [Entry("w", First(), WINDOW), Entry("w", Last(), WINDOW)];
    assert log[..1] == [log[0]];
    assert History(log[..1], "w") == [log[0]];
  }
}
