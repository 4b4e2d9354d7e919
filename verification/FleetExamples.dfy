/** Concrete runs of a small fleet: one virtual user for one second, and at most two workers. */
module FleetExamples {
  import opened Wire
  import opened CountMaps
  import opened Snapshots
  import opened Recording
  import opened SortedStrings
  import opened LoadSplitting
  import opened Assignments
  import opened Coordination
  import opened Aggregation
  import opened AggregatorHistory
  import opened RunControl
  import opened Deltas
  import opened FleetNode
  import opened FleetRuns
  import opened FleetDelivery
  import opened FleetTheorems

  const TARGET := HttpTarget("http://target", "GET", map[], "")
  const CONFIG := Config(TARGET, Load(ConstantVUs, 1, 0, 0, SECOND, 0), 1)
  const STARTS: Time := 1
  const ENDS: Time := 1 + SECOND
  const MIDDLE: Time := 1 + SECOND / 2
  const NOTHING := Interval([], 0)

  /** One successful request that took a millisecond. */
  const SINGLE := Interval([Request(Result(1_000_000, 200, 0, false))], 0)
  const ONE := Snapshot(Counters(1, 1, 0, 0, 0, 0, 0, 0, 0, map[200 := 1]), map[1000 := 1])

  function Coord(revision: nat): Coordinator {
    if revision == 0 then Coordinator(CONFIG, "r", 1, 0, 0, 0, [])
    else Coordinator(CONFIG, "r", 1, revision, STARTS, ENDS, [RunWindow(STARTS, ENDS)])
  }

  function Users(n: nat): LoadSlice {
    LoadSlice(ConstantVUs, n, 0, 0, Some(0))
  }

  function Given(revision: nat, users: nat): LoadAssignment {
    LoadAssignment("r", revision, Some(TARGET), Some(Users(users)), Some(STARTS), Some(ENDS))
  }

  /** What is issued to the first worker, and to workers a and b together. */
  function Single(w: string): map<string, LoadAssignment> {
    map[w := Given(1, 1)]
  }

  function Both(): map<string, LoadAssignment> {
    map["a" := Given(2, 1), "b" := Given(2, 0)]
  }

  // ----- What the coordinator issues --------------------------------------------------------

  lemma NamesAreUsable()
    ensures Trim("a") == "a" && Trim("b") == "b" && Trim("r") == "r"
    ensures ValidConfig(CONFIG) && NewCoordinator(CONFIG, "r", 1) == Some(Coord(0))
  {
    assert Trim("http://target")[0] == 'h' by { TrimKeepsFirst("http://target"); }
  }

  lemma TrimKeepsFirst(s: string)
    requires s != "" && !IsSpace(s[0])
    ensures Trim(s) != "" && Trim(s)[0] == s[0]
  {
    FirstSurvives(s);
  }

  lemma {:induction false} FirstSurvives(s: string)
    requires s != "" && !IsSpace(s[0])
    ensures TrimRight(s) != "" && TrimRight(s)[0] == s[0]
    decreases |s|
  {
    if |s| == 1 {
    } else if IsSpace(s[|s| - 1]) {
      FirstSurvives(s[..|s| - 1]);
    }
  }

  lemma FirstRevision(w: string)
    requires w == "a" || w == "b"
    ensures Reconcile(Coord(0), [w], 0) == (Coord(1), Issued(Single(w)))
  {
    hide Split, Trim;
    NamesAreUsable();
    SingleSlice(CONFIG.load, w);
    assert AssignmentsFor(Coord(1), Split(CONFIG.load, [w]).slices) == Single(w);
    assert WithWindow(Coord(0), 0) == Coord(1).(revision := 0);
  }

  /** One user on one worker. */
  lemma SingleSlice(load: Load, w: string)
    requires ValidLoad(load) && load.model.ConstantVUs? && load.virtualUsers == 1 && load.rampUp == 0 && Trim(w) != ""
    ensures Split(load, [w]) == Slices(map[w := Users(1)])
  {
    assert Sort([w]) == [w];
    assert SliceAt(load, 1, 0) == Users(1);
    hide Split, Trim, SliceAt, Sort;
    SplitSucceeds(load, [w]);
    assert [w][0] == w;
    var slices := Split(load, [w]).slices;
    assert slices[w] == Users(1) && forall v :: v in slices <==> v == w;
  }

  lemma SliceOfBoth()
    ensures SliceAt(CONFIG.load, 2, 0) == Users(1) && SliceAt(CONFIG.load, 2, 1) == Users(0)
  {
  }

  lemma BothAreUsable(ids: seq<string>)
    requires ids == ["a", "b"] || ids == ["b", "a"]
    ensures UsableIds(ids) && ids != [] && |ids| == 2 && ids[0] in ids && ids[1] in ids
  {
    NamesAreUsable();
    hide Trim;
  }

  lemma BothSlices(ids: seq<string>)
    requires ids == ["a", "b"] || ids == ["b", "a"]
    ensures Split(CONFIG.load, ids) == Slices(map["a" := Users(1), "b" := Users(0)])
  {
    hide *;
    SliceOfBoth();
    LoadIsValid();
    BothAreUsable(ids);
    SplitSucceeds(CONFIG.load, ids);
    SortsToBoth(ids);
    var slices := Split(CONFIG.load, ids).slices;
    assert ["a", "b"][0] == "a" && ["a", "b"][1] == "b";
    assert slices["a"] == Users(1) && slices["b"] == Users(0);
    assert forall w :: w in slices <==> w == "a" || w == "b";
  }

  lemma LoadIsValid()
    ensures ValidLoad(CONFIG.load) && CONFIG.load.model.ConstantVUs? && CONFIG.load.virtualUsers == 1
  {
  }

  lemma SecondRevision(ids: seq<string>, now: Time)
    requires (ids == ["a", "b"] || ids == ["b", "a"]) && now < ENDS
    ensures Reconcile(Coord(1), ids, now) == (Coord(2), Issued(Both()))
  {
    hide Split, Trim;
    BothSlices(ids);
    assert AssignmentsFor(Coord(2), Split(CONFIG.load, ids).slices) == Both();
  }

  lemma SortsToBoth(ids: seq<string>)
    requires ids == ["a", "b"] || ids == ["b", "a"]
    ensures Sort(ids) == ["a", "b"]
  {
    assert AtMost("a", "b") && !AtMost("b", "a");
    assert ids[1..] == [ids[1]] && [ids[1]][1..] == [];
    assert Sort([ids[1]]) == [ids[1]];
    if ids[0] == "a" {
      assert Insert("a", ["b"]) == ["a"] + ["b"];
    } else {
      assert ["a"][1..] == [];
      assert Insert("b", ["a"]) == ["a"] + Insert("b", []);
    }
  }

  // ----- Runs, one move at a time -----------------------------------------------------------------

  /** A legal run of these moves leads from the start of the example to the fleet. */
  ghost predicate Leads(moves: seq<Move>, f: Fleet) {
    Legal(NewFleet(0, Coord(0)), moves) && FleetRuns.After(NewFleet(0, Coord(0)), moves) == f
  }

  lemma OneMore(moves: seq<Move>, f: Fleet, m: Move, g: Fleet)
    requires Leads(moves, f) && Possible(f, m) && Hypotheses(f, m) && Next(f, m) == g
    ensures Leads(moves + [m], g)
  {
    hide Possible, Hypotheses, Next;
    assert (moves + [m])[..|moves|] == moves;
  }

  lemma NoMove()
    ensures Leads([], NewFleet(0, Coord(0)))
  {
  }

  lemma ExampleIsReachable(moves: seq<Move>, f: Fleet)
    requires Leads(moves, f)
    ensures Reachable(CONFIG, "r", 1, 0, f) && FleetOk(f)
  {
    NamesAreUsable();
    var start := NewFleet(0, Coord(0));
    assert RunStarts(CONFIG, "r", 1, 0, start);
    hide RunStarts, Legal, FleetRuns.After, FleetOk, Trim;
    assert Reachable(CONFIG, "r", 1, 0, f);
    ReachableIsOk(CONFIG, "r", 1, 0, f);
  }

  lemma IntervalContents()
    ensures ContentOf(NOTHING) == EMPTY && ContentOf(SINGLE) == ONE && Typical(NOTHING) && Typical(SINGLE)
  {
    assert SINGLE.samples[..0] == [];
    assert Recording.Recorded([]) == EMPTY;
    assert Recording.Recorded(SINGLE.samples) == Record(EMPTY, SINGLE.samples[0]);
  }

  /** The worker has reported nothing, except that a may have reported the single request. */
  ghost predicate Little(w: string, n: Node) {
    || (forall i :: 0 <= i < |n.ctrl.outbound| ==> Decoded(n.ctrl.outbound[i]) == EMPTY)
    || (w == "a" && |n.ctrl.outbound| == 1 && Decoded(n.ctrl.outbound[0]) == ONE)
  }

  ghost predicate ReportsLittle(f: Fleet) {
    && |f.order| <= 2 && ListsOnce(f.order)
    && forall w :: w in f.nodes ==> Little(w, f.nodes[w])
  }

  lemma LittleTotal(w: string, n: Node)
    requires Little(w, n)
    ensures var total := Sum(FleetRuns.Contents(n.ctrl.outbound)); total == EMPTY || (w == "a" && total == ONE)
  {
    hide Sum, Decoded;
    var contents := FleetRuns.Contents(n.ctrl.outbound);
    if forall i :: 0 <= i < |n.ctrl.outbound| ==> Decoded(n.ctrl.outbound[i]) == EMPTY {
      EmptiesTotal(contents);
    } else {
      assert contents == [ONE];
      SumSmall(ONE, ONE);
    }
  }

  lemma OneFits()
    ensures Fits(ONE) && Fits(EMPTY)
  {
  }

  lemma LittleFits(f: Fleet)
    requires ReportsLittle(f)
    ensures Fits(EmittedTotal(f))
  {
    hide Sum, Decoded, Add, Little, Fits;
    OneFits();
    var totals := EmittedTotals(f);
    forall i | 0 <= i < |f.order| ensures totals[i] == EMPTY || (f.order[i] == "a" && totals[i] == ONE) {
      if f.order[i] in f.nodes {
        LittleTotal(f.order[i], f.nodes[f.order[i]]);
      } else {
        EmptiesTotal(FleetRuns.Contents([]));
      }
    }
    AddLaws(ONE, EMPTY, EMPTY);
    AddLaws(EMPTY, EMPTY, EMPTY);
    if |totals| == 0 {
      EmptiesTotal(totals);
    } else if |totals| == 1 {
      assert totals == [totals[0]];
      SumSmall(totals[0], totals[0]);
    } else {
      assert f.order[0] != f.order[1];
      assert totals == [totals[0], totals[1]];
      SumSmall(totals[0], totals[1]);
    }
  }

  /** What a controller emits as the final of a revision. */
  function Final(w: string, revision: nat, sequence: nat, start: Time, end: Time, s: Snapshot): MetricsDelta {
    MetricsDelta(w, "r", revision, sequence, Some(start), Some(end), Some(s.counters), HdrV2Compressed,
                 Encoded(s.latencies), true)
  }

  /** A final with nothing in it. */
  function Silent(w: string, revision: nat, sequence: nat, start: Time, end: Time): MetricsDelta {
    Final(w, revision, sequence, start, end, EMPTY)
  }

  lemma FinalFlush(c: Controller, revision: nat, users: nat, end: Time, s: Snapshot)
    requires (c.workerId == "a" || c.workerId == "b") && revision > 0 && end > c.intervalStart && c.sequence + 1 < TWO_64
    requires s == EMPTY || s == ONE
    ensures Flush(c, Given(revision, users), end, s, true)
            == c.(outbound := c.outbound + [Final(c.workerId, revision, c.sequence + 1, c.intervalStart, end, s)],
                  sequence := c.sequence + 1)
  {
    NamesAreUsable();
    hide Trim;
  }

  /** Every assignment of the example is one its worker takes over. */
  lemma GivenReplaces(revision: nat, users: nat)
    requires revision > 0
    ensures Transition(None, Given(revision, users)) == Replace
    ensures revision > 1 ==> forall earlier :: Transition(Some(Given(1, earlier)), Given(revision, users)) == Replace
  {
    NamesAreUsable();
    assert Trim("GET") == "GET";
    hide Trim;
  }

  lemma IsGiven()
    ensures forall revision, users :: IsActive(Given(revision, users).load) == (users > 0)
  {
  }

  lemma Joins(moves: seq<Move>, f: Fleet, w: string)
    requires Leads(moves, f) && ReportsLittle(f) && w !in f.nodes && (w == "a" || w == "b")
    requires |f.order| <= 1 && w !in f.order && f.reconciling.None?
    ensures var g := f.(order := f.order + [w], nodes := f.nodes[w := NewNode(w, f.coord.revision)]);
      Leads(moves + [Join(w)], g) && ReportsLittle(g)
  {
    NamesAreUsable();
    hide Leads, Trim, Fits, EmittedTotal;
    var g := f.(order := f.order + [w], nodes := f.nodes[w := NewNode(w, f.coord.revision)]);
    LittleFits(g);
    OneMore(moves, f, Join(w), g);
  }

  /** The coordinator makes a revision. */
  lemma Wakes(moves: seq<Move>, f: Fleet, coord: Coordinator, assignments: map<string, LoadAssignment>)
    requires Leads(moves, f) && ReportsLittle(f) && f.reconciling.None?
    requires Reconcile(f.coord, f.order, f.clock) == (coord, Issued(assignments))
    requires f.clock + f.coord.leadTime + f.coord.config.load.duration <= MAX_TIMESTAMP
    ensures var g := f.(reconciling := Some(Reconciled(coord, assignments)));
      Leads(moves + [Wake], g) && ReportsLittle(g)
  {
    hide Leads, Reconcile, Fits, EmittedTotal, Little;
    var g := f.(reconciling := Some(Reconciled(coord, assignments)));
    LittleFits(g);
    OneMore(moves, f, Wake, g);
  }

  /** It records and sends it. */
  lemma Publishes(moves: seq<Move>, f: Fleet)
    requires Leads(moves, f) && ReportsLittle(f) && f.reconciling.Some?
    ensures Leads(moves + [Publish], Published(f)) && ReportsLittle(Published(f))
  {
    hide Leads, Fits, EmittedTotal, Decoded;
    LittleFits(Published(f));
    OneMore(moves, f, Publish, Published(f));
  }

  /** Both in a row. */
  lemma WakesAndPublishes(moves: seq<Move>, f: Fleet, coord: Coordinator, assignments: map<string, LoadAssignment>)
    requires Leads(moves, f) && ReportsLittle(f) && f.reconciling.None?
    requires Reconcile(f.coord, f.order, f.clock) == (coord, Issued(assignments))
    requires f.clock + f.coord.leadTime + f.coord.config.load.duration <= MAX_TIMESTAMP
    ensures var g := f.(coord := coord, messages := f.messages + [Revision(coord.revision, assignments)],
                        nodes := Delivering(f.nodes, assignments));
      Leads(moves + [Wake] + [Publish], g) && ReportsLittle(g)
  {
    hide Leads, Reconcile, ReportsLittle;
    Wakes(moves, f, coord, assignments);
    Publishes(moves + [Wake], f.(reconciling := Some(Reconciled(coord, assignments))));
  }

  lemma Advances(moves: seq<Move>, f: Fleet, to: Time)
    requires Leads(moves, f) && ReportsLittle(f) && f.clock <= to
    ensures Leads(moves + [Advance(to)], f.(clock := to)) && ReportsLittle(f.(clock := to))
  {
    hide Leads, Fits, EmittedTotal, Little;
    LittleFits(f.(clock := to));
    OneMore(moves, f, Advance(to), f.(clock := to));
  }

  /** The worker applies the next assignment of its inbox, as computed. */
  lemma Takes(moves: seq<Move>, f: Fleet, w: string, now: Time, n: Node)
    requires Leads(moves, f) && ReportsLittle(f) && f.clock <= now
    requires w in f.nodes && f.nodes[w].inbox != [] && !f.nodes[w].ctrl.halted && f.nodes[w].ctrl.interval > 0
    requires f.nodes[w].ctrl.current.Some? ==> now < f.coord.deadline
    requires n == NodeApplied(f.nodes[w], now, NOTHING).0
    requires Little(w, n)
    ensures var g := f.(clock := now, nodes := f.nodes[w := n]);
      Leads(moves + [Take(w, now, NOTHING)], g) && ReportsLittle(g)
  {
    hide Leads, Fits, EmittedTotal, Little, NodeApplied, Typical;
    IntervalContents();
    var g := f.(clock := now, nodes := f.nodes[w := n]);
    LittleFits(g);
    OneMore(moves, f, Take(w, now, NOTHING), g);
  }

  /** The worker's timer fires, as computed. */
  lemma Fires(moves: seq<Move>, f: Fleet, w: string, interval: Interval, n: Node)
    requires Leads(moves, f) && ReportsLittle(f)
    requires w in f.nodes && !f.nodes[w].ctrl.halted && f.nodes[w].ctrl.interval > 0
    requires f.nodes[w].ctrl.timerArmed && f.nodes[w].ctrl.timerAt <= f.clock
    requires n == NodeFired(f.nodes[w], interval)
    requires Little(w, n) && Typical(interval)
    ensures var g := f.(nodes := f.nodes[w := n]);
      Leads(moves + [Fire(w, interval)], g) && ReportsLittle(g)
  {
    hide Leads, Fits, EmittedTotal, Little, NodeFired, Typical;
    var g := f.(nodes := f.nodes[w := n]);
    LittleFits(g);
    OneMore(moves, f, Fire(w, interval), g);
  }

  lemma Delivers(moves: seq<Move>, f: Fleet, w: string)
    requires Leads(moves, f) && ReportsLittle(f) && HasPending(f, w)
    ensures Leads(moves + [Deliver(w)], Handed(f, w)) && ReportsLittle(Handed(f, w))
  {
    hide Leads, Fits, EmittedTotal, Decoded;
    LittleFits(Handed(f, w));
    OneMore(moves, f, Deliver(w), Handed(f, w));
  }

  // ----- What a worker does ---------------------------------------------------------------------

  /** The first assignment, applied in the run window: the worker collects. */
  lemma FirstTaken(w: string, joined: nat, revision: nat, now: Time)
    requires (w == "a" || w == "b") && revision > 0 && STARTS <= now < ENDS
    ensures NodeApplied(NewNode(w, joined).(inbox := [Given(revision, 1)]), now, NOTHING).0
            == Collects(w, joined, revision, now)
  {
    hide Transition, ContentOf;
    GivenReplaces(revision, 1);
    assert Sub(now, STARTS) / SECOND == 0;
    assert [Given(revision, 1)][1..] == [];
  }

  function Collects(w: string, joined: nat, revision: nat, now: Time): Node {
    Node([], Controller(w, SECOND, Some(Given(revision, 1)), true, true, now, 0, ENDS, true, false, []),
         0, joined, Some(now), [])
  }

  /** The first assignment, applied at the deadline: the worker never collects. */
  lemma FirstTakenAtDeadline(w: string)
    requires w == "a" || w == "b"
    ensures NodeApplied(NewNode(w, 0).(inbox := [Given(1, 1)]), ENDS, NOTHING).0 == NeverCollects(w, true)
    ensures NodeFired(NeverCollects(w, true), NOTHING) == NeverCollects(w, false)
  {
    hide Transition, ContentOf, NewMetricsDelta;
    GivenReplaces(1, 1);
    assert [Given(1, 1)][1..] == [];
  }

  function NeverCollects(w: string, armed: bool): Node {
    Node([], Controller(w, SECOND, Some(Given(1, 1)), false, false, STARTS, 0, ENDS, armed, false, []),
         0, 0, Some(ENDS), [])
  }

  // ----- A first assignment that arrives at the deadline --------------------------------------------

  /** The fleet once the only worker has joined and been sent its assignment. */
  function Alone(w: string): Fleet {
    Fleet(0, Coord(1), None, [Revision(1, Single(w))], [w], map[w := NewNode(w, 0).(inbox := [Given(1, 1)])])
  }

  lemma FirstMoves(w: string)
    requires w == "a" || w == "b"
    ensures Leads([Join(w), Wake, Publish], Alone(w)) && ReportsLittle(Alone(w))
  {
    hide Leads, Reconcile;
    NoMove();
    FirstRevision(w);
    var joined := Fleet(0, Coord(0), None, [], [w], map[w := NewNode(w, 0)]);
    Joins([], NewFleet(0, Coord(0)), w);
    assert NewFleet(0, Coord(0)).(order := [] + [w], nodes := map[][w := NewNode(w, 0)]) == joined;
    WakesAndPublishes([] + [Join(w)], joined, Coord(1), Single(w));
    assert NewNode(w, 0).inbox + [Given(1, 1)] == [Given(1, 1)];
    assert Delivering(joined.nodes, Single(w)) == Alone(w).nodes;
    assert [] + [Revision(1, Single(w))] == [Revision(1, Single(w))];
    assert [] + [Join(w)] + [Wake] + [Publish] == [Join(w), Wake, Publish];
  }

  function LateStart(): seq<Move> {
    [Join("a"), Wake, Publish, Advance(ENDS), Take("a", ENDS, NOTHING), Fire("a", NOTHING)]
  }

  function Unstarted(): Fleet {
    Alone("a").(clock := ENDS, nodes := map["a" := NeverCollects("a", false)])
  }

  /** A legal run whose only worker applies its first assignment at the deadline. Its
      deadline step is past and its queue delivered, and still it is missing. */
  lemma LateFirstAssignmentIsMissing()
    ensures Leads(LateStart(), Unstarted())
    ensures Reachable(CONFIG, "r", 1, 0, Unstarted())
    ensures PassedDeadline(Unstarted(), "a") && QueueEmpty(Unstarted(), "a") && FirstTakenLate(Unstarted(), "a")
    ensures MissingFinals(RunOf(Unstarted()).agg) == {"a"}
  {
    LateStartLeads();
    ExampleIsReachable(LateStart(), Unstarted());
    UnstartedRun();
  }

  lemma LateStartLeads()
    ensures Leads(LateStart(), Unstarted())
  {
    hide Leads, NodeApplied, NodeFired;
    var sent, late := Alone("a"), Alone("a").(clock := ENDS);
    FirstMoves("a");
    Advances([Join("a"), Wake, Publish], sent, ENDS);
    FirstTakenAtDeadline("a");
    Takes([Join("a"), Wake, Publish] + [Advance(ENDS)], late, "a", ENDS, NeverCollects("a", true));
    var taken := late.(nodes := map["a" := NeverCollects("a", true)]);
    assert late.nodes["a" := NeverCollects("a", true)] == taken.nodes;
    Fires([Join("a"), Wake, Publish] + [Advance(ENDS)] + [Take("a", ENDS, NOTHING)], taken, "a", NOTHING, NeverCollects("a", false));
    assert taken.nodes["a" := NeverCollects("a", false)] == Unstarted().nodes;
    assert [Join("a"), Wake, Publish] + [Advance(ENDS)] + [Take("a", ENDS, NOTHING)] + [Fire("a", NOTHING)] == LateStart();
  }

  lemma UnstartedRun()
    ensures MissingFinals(RunOf(Unstarted()).agg) == {"a"}
  {
    assert Unstarted().messages[..0] == [];
    assert Play("r", []) == Run(NewAggregate("r"), []);
    IsGiven();
  }

  // ----- Two workers ------------------------------------------------------------------------------

  function Other(w: string): string {
    if w == "a" then "b" else "a"
  }

  function Joining(w: string): seq<Move> {
    [Join(w), Wake, Publish, Take(w, STARTS, NOTHING), Join(Other(w)), Wake, Publish]
  }

  /** The fleet once the first worker collects and the other has joined and been counted. */
  function Two(w: string): Fleet
    requires w == "a" || w == "b"
  {
    Fleet(STARTS, Coord(2), None, [Revision(1, Single(w)), Revision(2, Both())], [w, Other(w)],
          map[w := Collects(w, 0, 1, STARTS).(inbox := [Both()[w]]),
              Other(w) := NewNode(Other(w), 1).(inbox := [Both()[Other(w)]])])
  }

  lemma JoiningLeads(w: string)
    requires w == "a" || w == "b"
    ensures Leads(Joining(w), Two(w)) && ReportsLittle(Two(w))
  {
    hide Leads, NodeApplied, Reconcile;
    var v := Other(w);
    FirstMoves(w);
    FirstTaken(w, 0, 1, STARTS);
    Takes([Join(w), Wake, Publish], Alone(w), w, STARTS, Collects(w, 0, 1, STARTS));
    var started := Alone(w).(clock := STARTS, nodes := map[w := Collects(w, 0, 1, STARTS)]);
    assert Alone(w).nodes[w := Collects(w, 0, 1, STARTS)] == started.nodes;
    Joins([Join(w), Wake, Publish] + [Take(w, STARTS, NOTHING)], started, v);
    var joined := started.(order := [w, v], nodes := started.nodes[v := NewNode(v, 1)]);
    assert [w] + [v] == [w, v];
    assert started.(order := started.order + [v], nodes := started.nodes[v := NewNode(v, started.coord.revision)]) == joined;
    SecondRevision([w, v], STARTS);
    WakesAndPublishes([Join(w), Wake, Publish] + [Take(w, STARTS, NOTHING)] + [Join(v)], joined, Coord(2), Both());
    TwoIsWoken(w);
    assert [Join(w), Wake, Publish] + [Take(w, STARTS, NOTHING)] + [Join(v)] + [Wake] + [Publish] == Joining(w);
  }

  lemma TwoIsWoken(w: string)
    requires w == "a" || w == "b"
    ensures var nodes := map[w := Collects(w, 0, 1, STARTS), Other(w) := NewNode(Other(w), 1)];
      && map[w := Collects(w, 0, 1, STARTS)][Other(w) := NewNode(Other(w), 1)] == nodes
      && Delivering(nodes, Both()) == Two(w).nodes
    ensures [Revision(1, Single(w))] + [Revision(2, Both())] == Two(w).messages
  {
    assert [] + [Both()[w]] == [Both()[w]] && [] + [Both()[Other(w)]] == [Both()[Other(w)]];
  }

  /** What both revisions leave in the aggregator. */
  lemma RevisionsRecorded(w: string)
    requires w == "a" || w == "b"
    ensures var run := Play("r", [Revision(1, Single(w)), Revision(2, Both())]);
      && run.log == [] && run.agg.workers == map[] && run.agg.snapshot == EMPTY && run.agg.violations == []
      && run.agg.runId == "r"
      && run.agg.assignments == map[1 := map[w := Window(1, STARTS, ENDS, true)], 2 := run.agg.latest]
      && run.agg.latest == map["a" := Window(2, STARTS, ENDS, true), "b" := Window(2, STARTS, ENDS, false)]
  {
    IsGiven();
    var first, second := Revision(1, Single(w)), Revision(2, Both());
    assert [first, second][..1] == [first] && [first][..0] == [];
    assert Play("r", []) == Run(NewAggregate("r"), []);
    assert WindowsOf(1, Single(w)) == map[w := Window(1, STARTS, ENDS, true)];
    assert WindowsOf(2, Both()) == map["a" := Window(2, STARTS, ENDS, true), "b" := Window(2, STARTS, ENDS, false)];
    assert Play("r", [first]) == Step(Play("r", []), first);
  }

  // ----- An idle worker's delta still on its way at completion ------------------------------------

  /** Worker b after its replacement by a: its closing delta is sent, and it has no load. */
  function Retired(): Node {
    Node([], Controller("b", SECOND, Some(Given(2, 0)), true, false, STARTS, 1, ENDS, true, false,
                        [Silent("b", 1, 1, STARTS, MIDDLE)]),
         0, 0, Some(STARTS), [NOTHING])
  }

  /** Worker a after its deadline step. */
  function Closed(): Node {
    Node([], Controller("a", SECOND, Some(Given(2, 1)), true, false, MIDDLE, 1, ENDS, false, false,
                        [Silent("a", 2, 1, MIDDLE, ENDS)]),
         0, 1, Some(MIDDLE), [NOTHING])
  }

  lemma BRetires()
    ensures NodeApplied(Collects("b", 0, 1, STARTS).(inbox := [Given(2, 0)]), MIDDLE, NOTHING).0 == Retired()
    ensures Decoded(Silent("b", 1, 1, STARTS, MIDDLE)) == EMPTY
  {
    hide Transition, ContentOf, Flush;
    var c := Collects("b", 0, 1, STARTS).ctrl;
    GivenReplaces(2, 0);
    IntervalContents();
    FinalFlush(c.(scheduling := false), 1, 1, MIDDLE, EMPTY);
    assert [] + [Silent("b", 1, 1, STARTS, MIDDLE)] == [Silent("b", 1, 1, STARTS, MIDDLE)];
    assert [Given(2, 0)][1..] == [] && [] + [NOTHING] == [NOTHING];
  }

  lemma ACloses()
    ensures NodeFired(Collects("a", 1, 2, MIDDLE), NOTHING) == Closed()
    ensures Decoded(Silent("a", 2, 1, MIDDLE, ENDS)) == EMPTY
  {
    hide ContentOf, Flush;
    var c := Collects("a", 1, 2, MIDDLE).ctrl;
    IntervalContents();
    FinalFlush(c.(scheduling := false), 2, 1, ENDS, EMPTY);
    assert [] + [Silent("a", 2, 1, MIDDLE, ENDS)] == [Silent("a", 2, 1, MIDDLE, ENDS)] && [] + [NOTHING] == [NOTHING];
  }

  function Handover(): seq<Move> {
    Joining("b") + [Take("b", MIDDLE, NOTHING)] + [Take("a", MIDDLE, NOTHING)] + [Advance(ENDS)] + [Fire("a", NOTHING)]
  }

  function HandedOver(): Fleet {
    Two("b").(clock := ENDS, nodes := map["b" := Retired(), "a" := Closed()])
  }

  lemma HandoverLeads()
    ensures Leads(Handover(), HandedOver()) && ReportsLittle(HandedOver())
  {
    hide Leads, NodeApplied, NodeFired, Decoded;
    var two := Two("b");
    JoiningLeads("b");
    BRetires();
    Takes(Joining("b"), two, "b", MIDDLE, Retired());
    var retired := two.(clock := MIDDLE, nodes := two.nodes["b" := Retired()]);
    FirstTaken("a", 1, 2, MIDDLE);
    Takes(Joining("b") + [Take("b", MIDDLE, NOTHING)], retired, "a", MIDDLE, Collects("a", 1, 2, MIDDLE));
    var taken := retired.(nodes := retired.nodes["a" := Collects("a", 1, 2, MIDDLE)]);
    Advances(Joining("b") + [Take("b", MIDDLE, NOTHING)] + [Take("a", MIDDLE, NOTHING)], taken, ENDS);
    ACloses();
    Fires(Joining("b") + [Take("b", MIDDLE, NOTHING)] + [Take("a", MIDDLE, NOTHING)] + [Advance(ENDS)],
          taken.(clock := ENDS), "a", NOTHING, Closed());
    assert taken.nodes["a" := Closed()] == HandedOver().nodes;
  }

  /** A legal run that is complete while a delta of a worker without load in the latest
      revision has been sent and not delivered. */
  lemma IdleDeltaMayBePending()
    ensures Leads(Handover() + [Deliver("a")], Handed(HandedOver(), "a"))
    ensures var f := Handed(HandedOver(), "a");
      && Reachable(CONFIG, "r", 1, 0, f)
      && Complete(RunOf(f).agg) && HasPending(f, "b")
      && "b" in RunOf(f).agg.latest && !RunOf(f).agg.latest["b"].active
  {
    var before, f := HandedOver(), Handed(HandedOver(), "a");
    HandoverLeads();
    assert HasPending(before, "a");
    hide Leads, FleetOk;
    Delivers(Handover(), before, "a");
    ExampleIsReachable(Handover(), before);
    ExampleIsReachable(Handover() + [Deliver("a")], f);
    LittleFits(before);
    NextIsGranted(before, "a");
    RevisionsRecorded("b");
    LatestAfterDelivery(before, "a");
    WorkerCompletes(f, "a");
    OnlyActivesAreMissing(RunOf(f).agg);
  }

  lemma OnlyActivesAreMissing(agg: Aggregate)
    requires agg.latest == map["a" := Window(2, STARTS, ENDS, true), "b" := Window(2, STARTS, ENDS, false)]
    ensures "a" !in MissingFinals(agg) ==> Complete(agg)
  {
  }

  lemma LatestAfterDelivery(f: Fleet, w: string)
    requires HasPending(f, w) && Judge(RunOf(f).agg, w, Some(Pending(f.nodes[w]))).Granted?
    ensures RunOf(Handed(f, w)).agg.latest == RunOf(f).agg.latest
  {
    var m := Delivery(w, Some(Pending(f.nodes[w])));
    hide Judge, Play, Step;
    PlayAppend(f.coord.runId, f.messages, m);
    StepGranted(RunOf(f), w, Pending(f.nodes[w]));
  }

  // ----- A replacement applied at the deadline ------------------------------------------------------

  /** Worker a after its replacement at the deadline: the first revision is closed there,
      and the open interval starts over. */
  function Replaced(): Node {
    Node([], Controller("a", SECOND, Some(Given(2, 1)), true, false, STARTS, 1, ENDS, true, false,
                        [Silent("a", 1, 1, STARTS, ENDS)]),
         0, 0, Some(STARTS), [NOTHING])
  }

  /** The same worker after the timer that fires at once. */
  function Repeated(): Node {
    Node([], Controller("a", SECOND, Some(Given(2, 1)), true, false, STARTS, 2, ENDS, false, false,
                        [Silent("a", 1, 1, STARTS, ENDS), Silent("a", 2, 2, STARTS, ENDS)]),
         0, 0, Some(STARTS), [NOTHING, NOTHING])
  }

  lemma AIsReplacedLate()
    ensures NodeApplied(Collects("a", 0, 1, STARTS).(inbox := [Given(2, 1)]), ENDS, NOTHING).0 == Replaced()
  {
    hide Transition, ContentOf, Flush;
    var c := Collects("a", 0, 1, STARTS).ctrl;
    GivenReplaces(2, 1);
    IntervalContents();
    FinalFlush(c.(scheduling := false), 1, 1, ENDS, EMPTY);
    assert [] + [Silent("a", 1, 1, STARTS, ENDS)] == [Silent("a", 1, 1, STARTS, ENDS)];
    assert [Given(2, 1)][1..] == [] && [] + [NOTHING] == [NOTHING];
  }

  lemma ARepeats()
    ensures NodeFired(Replaced(), NOTHING) == Repeated()
  {
    hide ContentOf, Flush;
    var c := Replaced().ctrl;
    IntervalContents();
    FinalFlush(c, 2, 1, ENDS, EMPTY);
    assert [Silent("a", 1, 1, STARTS, ENDS)] + [Silent("a", 2, 2, STARTS, ENDS)] == Repeated().ctrl.outbound;
    assert [NOTHING] + [NOTHING] == [NOTHING, NOTHING];
  }

  function LateFleet(): Fleet {
    Two("a").(clock := ENDS, nodes := Two("a").nodes["a" := Repeated()])
  }

  /** The whole window as a worker reports it with nothing collected. */
  lemma WholeRunOf(run: Run, revision: nat, sequence: nat)
    requires AggregatorHistory.Consistent(run) && run.agg.runId == "r" && run.agg.snapshot == EMPTY
    requires revision in run.agg.assignments && "a" in run.agg.assignments[revision]
    requires run.agg.assignments[revision]["a"] == Window(revision, STARTS, ENDS, true)
    requires sequence == (StateOf(run.agg, "a").lastSequence + 1) % TWO_64 && revision > StateOf(run.agg, "a").lastRevision
    requires forall e :: e in History(run.log, "a") ==> e.window.startsAt == STARTS
    ensures Judge(run.agg, "a", Some(Silent("a", revision, sequence, STARTS, ENDS))).Granted? <==>
      History(run.log, "a") == []
  {
    hide AggregatorHistory.Consistent, SnapshotProblem, Merged, Decoded, History, Trim, Judge, StateOf, ValidConfig,
      NewCoordinator;
    var d, window := Silent("a", revision, sequence, STARTS, ENDS), Window(revision, STARTS, ENDS, true);
    NamesAreUsable();
    SilentIsSound(d);
    WholeRunAcceptedExactly(run, "a", d, window);
  }

  lemma SilentIsSound(d: MetricsDelta)
    requires d.counters == Some(NO_COUNTERS) && d.encoding == HdrV2Compressed && d.histogram == Encoded(map[])
    ensures SnapshotProblem(d) == None && Decoded(d) == EMPTY && Merged([EMPTY, EMPTY]) == Some(EMPTY)
  {
    hide Merged, SnapshotProblem, Add;
    EmptyMerges();
    NothingIsSound(d);
  }

  lemma NothingIsSound(d: MetricsDelta)
    requires d.counters == Some(NO_COUNTERS) && d.encoding == HdrV2Compressed && d.histogram == Encoded(map[])
    ensures SnapshotProblem(d) == None
  {
    TotalOfNothing();
    hide Total;
  }

  lemma EmptyMerges()
    ensures Merged([EMPTY, EMPTY]) == Some(EMPTY) && Add(EMPTY, EMPTY) == EMPTY
  {
    hide Sum, Add;
    SumSmall(EMPTY, EMPTY);
    AddLaws(EMPTY, EMPTY, EMPTY);
    EmptyFits();
  }

  lemma EmptyFits()
    ensures Fits(EMPTY)
  {
  }

  /** From a state that a legal run reaches, one replacement applied at the deadline is
      enough: the worker reports the whole run twice, and the second report is refused. */
  lemma LateReplacementIsRefused()
    ensures Leads(Joining("a"), Two("a")) && Possible(Two("a"), Take("a", ENDS, NOTHING))
    ensures !Hypotheses(Two("a"), Take("a", ENDS, NOTHING))
    ensures var taken := Next(Two("a"), Take("a", ENDS, NOTHING));
      Possible(taken, Fire("a", NOTHING)) && Next(taken, Fire("a", NOTHING)) == LateFleet()
    ensures HasPending(LateFleet(), "a") && HasPending(Handed(LateFleet(), "a"), "a")
    ensures RunOf(Handed(LateFleet(), "a")).agg.violations == []
    ensures |RunOf(Handed(Handed(LateFleet(), "a"), "a")).agg.violations| == 1
  {
    JoiningLeads("a");
    LateMoves();
    LateDeliveries();
  }

  lemma LateMoves()
    ensures var f := Two("a");
      Possible(f, Take("a", ENDS, NOTHING)) && !Hypotheses(f, Take("a", ENDS, NOTHING))
    ensures var taken := Next(Two("a"), Take("a", ENDS, NOTHING));
      Possible(taken, Fire("a", NOTHING)) && Next(taken, Fire("a", NOTHING)) == LateFleet()
  {
    AIsReplacedLate();
    ARepeats();
    hide NodeApplied, NodeFired, Fits, EmittedTotal;
    var two := Two("a");
    assert two.nodes["a" := Replaced()]["a" := Repeated()] == LateFleet().nodes;
  }

  lemma LateDeliveries()
    ensures RunOf(Handed(LateFleet(), "a")).agg.violations == []
    ensures |RunOf(Handed(Handed(LateFleet(), "a"), "a")).agg.violations| == 1
  {
    hide Play, AggregatorHistory.Consistent, Judge, Step, Decoded, History, StateOf, MissingFinals;
    var messages, d1, d2 := LateFleet().messages, Silent("a", 1, 1, STARTS, ENDS), Silent("a", 2, 2, STARTS, ENDS);
    var m1, m2 := Delivery("a", Some(d1)), Delivery("a", Some(d2));
    RevisionsRecorded("a");
    PlayAppend("r", messages, m1);
    PlayAppend("r", messages + [m1], m2);
    EveryPlayIsConsistent("r", messages);
    EveryPlayIsConsistent("r", messages + [m1]);
    var run0, run1 := Play("r", messages), Play("r", messages + [m1]);
    NothingReported(run0);
    WholeRunOf(run0, 1, 1);
    StepGranted(run0, "a", d1);
    hide Committed;
    FirstReport(run0, run1, d1);
    WholeRunOf(run1, 2, 2);
    SecondIsRefused(run1, d1, d2);
  }

  lemma NothingReported(run: Run)
    requires run.log == [] && run.agg.workers == map[]
    ensures History(run.log, "a") == [] && StateOf(run.agg, "a") == NEW_WORKER
  {
  }

  lemma FirstReport(before: Run, after: Run, d: MetricsDelta)
    requires before.log == [] && before.agg.snapshot == EMPTY && before.agg.violations == [] && before.agg.workers == map[]
    requires d.revision in before.agg.assignments && "a" in before.agg.assignments[d.revision]
    requires before.agg.assignments[d.revision]["a"].startsAt == STARTS
    requires after == Run(Committed(before.agg, "a", d), before.log + [EntryOf(before, "a", d)])
    requires d == Silent("a", 1, 1, STARTS, ENDS)
    ensures after.agg.violations == [] && after.agg.snapshot == EMPTY && after.agg.assignments == before.agg.assignments
    ensures after.agg.runId == before.agg.runId
    ensures StateOf(after.agg, "a").lastSequence == 1 && StateOf(after.agg, "a").lastRevision == 1
    ensures History(after.log, "a") == [EntryOf(before, "a", d)] && EntryOf(before, "a", d).window.startsAt == STARTS
  {
    hide Decoded, Add, Sum, SnapshotProblem, Merged;
    SilentIsSound(d);
    EmptyMerges();
    assert [] + [EntryOf(before, "a", d)] == [EntryOf(before, "a", d)];
    assert [EntryOf(before, "a", d)][..0] == [];
  }

  lemma SecondIsRefused(run: Run, d1: MetricsDelta, d2: MetricsDelta)
    requires StateOf(run.agg, "a").lastSequence == 1 && d2.sequence == 2 && run.agg.violations == []
    requires !Judge(run.agg, "a", Some(d2)).Granted?
    ensures |Step(run, Delivery("a", Some(d2))).agg.violations| == 1
  {
    hide RequiresContiguous, IntervalProblem, SnapshotProblem, Merged, Decoded, Trim;
  }
}
