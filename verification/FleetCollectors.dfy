/** The fleet with its workers' collectors and schedulers beside it: what reaches the
    orchestrator is what the collectors have accepted. */
module FleetCollectors {
  import opened Wire
  import opened Snapshots
  import opened Recording
  import opened AggregatorHistory
  import opened Deltas
  import opened FleetNode
  import opened FleetRuns
  import opened FleetTheorems
  import opened FleetSamples
  import Coordination
  import Collecting
  import Schedulers

  /** A worker's queue of samples. */
  const BUFFER: nat := 65_536

  /** Every worker has, beside its controller, the finer loop of schedulers and collector. */
  datatype Plant = Plant(fleet: Fleet, loops: map<string, Schedulers.Loop>)

  datatype PlantMove = Fleetwise(m: Move) | Inside(worker: string, t: Schedulers.Turn)

  function Reports(p: Plant, w: string): seq<Collecting.Report> {
    if w in p.loops then p.loops[w].collector.reports else []
  }

  function IntervalOf(r: Collecting.Report): Interval {
    Interval(r.samples, r.dropped)
  }

  /** A controller that reports an interval reports what its collector answered: the reply
      after those it has reported before. */
  ghost predicate Supplied(p: Plant, w: string, interval: Interval, next: Fleet)
    requires w in p.fleet.nodes && w in next.nodes
  {
    var k := |p.fleet.nodes[w].flushed|;
    |next.nodes[w].flushed| > k ==> k < |Reports(p, w)| && interval == IntervalOf(Reports(p, w)[k])
  }

  ghost predicate Possible(p: Plant, move: PlantMove) {
    match move
    case Fleetwise(m) =>
      && FleetRuns.Possible(p.fleet, m)
      && (m.Take? || m.Fire? ==> Supplied(p, m.worker, m.interval, FleetRuns.Next(p.fleet, m)))
    case Inside(w, t) => w in p.loops && Schedulers.Enabled(p.loops[w], t)
  }

  ghost function Next(p: Plant, move: PlantMove): Plant
    requires Possible(p, move)
  {
    match move
    case Fleetwise(m) =>
      Plant(FleetRuns.Next(p.fleet, m),
            if m.Join? then p.loops[m.worker := Schedulers.NewLoop(BUFFER)] else p.loops)
    case Inside(w, t) => p.(loops := p.loops[w := Schedulers.Turned(p.loops[w], t)])
  }

  /** Every move is possible, and those of the fleet are within its hypotheses. */
  ghost predicate Legal(p: Plant, moves: seq<PlantMove>)
    decreases |moves|, 0
  {
    moves == [] ||
    var init, last := moves[..|moves| - 1], moves[|moves| - 1];
    && Legal(p, init) && Possible(After(p, init), last)
    && (last.Fleetwise? ==> Hypotheses(After(p, init).fleet, last.m))
  }

  ghost function After(p: Plant, moves: seq<PlantMove>): Plant
    requires Legal(p, moves)
    decreases |moves|, 1
  {
    if moves == [] then p
    else Next(After(p, moves[..|moves| - 1]), moves[|moves| - 1])
  }

  // ----- The fleet's own run ---------------------------------------------------------------

  function FleetMoves(moves: seq<PlantMove>): seq<Move> {
    if moves == [] then []
    else
      var last := moves[|moves| - 1];
      FleetMoves(moves[..|moves| - 1]) + if last.Fleetwise? then [last.m] else []
  }

  /** Leaving out what happens inside the workers, the fleet makes a legal run of its own. */
  lemma {:induction false} FleetRunIsLegal(p: Plant, moves: seq<PlantMove>)
    requires Legal(p, moves)
    ensures FleetRuns.Legal(p.fleet, FleetMoves(moves))
    ensures FleetRuns.After(p.fleet, FleetMoves(moves)) == After(p, moves).fleet
    decreases |moves|
  {
    hide FleetRuns.Possible, Hypotheses, FleetRuns.Next, Schedulers.Enabled, Schedulers.Turned, Supplied;
    if moves == [] {
    } else {
      var init, last := moves[..|moves| - 1], moves[|moves| - 1];
      FleetRunIsLegal(p, init);
      var before := FleetMoves(init);
      if last.Fleetwise? {
        assert (before + [last.m])[..|before|] == before;
      } else {
        assert before + [] == before;
      }
    }
  }

  // ----- Reported intervals are the collectors' replies -----------------------------------------

  /** The intervals a worker has reported are the first replies of its collector. */
  ghost predicate RepliesReported(n: Node, reports: seq<Collecting.Report>) {
    && |n.flushed| <= |reports|
    && forall i :: 0 <= i < |n.flushed| ==> n.flushed[i] == IntervalOf(reports[i])
  }

  ghost predicate PlantOk(p: Plant) {
    && (forall w :: w in p.fleet.nodes <==> w in p.loops)
    && (forall w :: w in p.loops ==> Schedulers.Sound(p.loops[w]))
    && (forall w :: w in p.fleet.nodes ==> RepliesReported(p.fleet.nodes[w], Reports(p, w)))
  }

  lemma StepExtends(c: Collecting.State, step: Collecting.Step)
    ensures var d := Collecting.Next(c, step);
      |d.reports| >= |c.reports| && d.reports[..|c.reports|] == c.reports
  {
  }

  lemma TurnExtends(l: Schedulers.Loop, t: Schedulers.Turn)
    requires Schedulers.Enabled(l, t)
    ensures var m := Schedulers.Turned(l, t);
      |m.collector.reports| >= |l.collector.reports| && m.collector.reports[..|l.collector.reports|] == l.collector.reports
  {
    forall step
      ensures var d := Collecting.Next(l.collector, step);
        |d.reports| >= |l.collector.reports| && d.reports[..|l.collector.reports|] == l.collector.reports
    {
      StepExtends(l.collector, step);
    }
    assert l.collector.reports[..|l.collector.reports|] == l.collector.reports;
    hide Collecting.Next;
  }

  lemma RepliesGrow(n: Node, before: seq<Collecting.Report>, after: seq<Collecting.Report>)
    requires RepliesReported(n, before) && |after| >= |before| && after[..|before|] == before
    ensures RepliesReported(n, after)
  {
    assert forall i :: 0 <= i < |before| ==> after[..|before|][i] == after[i];
  }

  lemma InsideKeeps(p: Plant, w: string, t: Schedulers.Turn)
    requires PlantOk(p) && Possible(p, Inside(w, t))
    ensures PlantOk(Next(p, Inside(w, t)))
  {
    hide Schedulers.Sound, Schedulers.Turned, Schedulers.Enabled, RepliesReported;
    Schedulers.TurnKeepsSound(p.loops[w], t);
    TurnExtends(p.loops[w], t);
    var q := Next(p, Inside(w, t));
    forall v | v in q.fleet.nodes ensures RepliesReported(q.fleet.nodes[v], Reports(q, v)) {
      assert RepliesReported(p.fleet.nodes[v], Reports(p, v));
      if v == w {
        RepliesGrow(p.fleet.nodes[w], Reports(p, w), Reports(q, w));
      }
    }
  }

  lemma NewLoopIsSound()
    ensures Schedulers.Sound(Schedulers.NewLoop(BUFFER)) && Schedulers.NewLoop(BUFFER).collector.reports == []
  {
    Schedulers.EveryLoopIsSound(BUFFER, []);
  }

  /** What a fleet move does to the reported intervals. */
  lemma FlushedByMove(f: Fleet, m: Move, w: string)
    requires FleetRuns.Possible(f, m) && w in FleetRuns.Next(f, m).nodes
    ensures var g := FleetRuns.Next(f, m);
      && (w !in f.nodes ==> m == Join(w) && g.nodes[w].flushed == [])
      && (w in f.nodes ==>
            || g.nodes[w].flushed == f.nodes[w].flushed
            || ((m.Take? || m.Fire?) && m.worker == w && g.nodes[w].flushed == f.nodes[w].flushed + [m.interval]))
  {
    RevisionsKeepCtrl(f);
    hide Woken, RunControl.Apply, RunControl.Fired, ContentOf;
  }

  lemma MoverKeeps(p: Plant, m: Move, w: string)
    requires Possible(p, Fleetwise(m)) && w in FleetRuns.Next(p.fleet, m).nodes
    requires w in p.fleet.nodes ==> RepliesReported(p.fleet.nodes[w], Reports(p, w))
    ensures RepliesReported(FleetRuns.Next(p.fleet, m).nodes[w], Reports(p, w))
  {
    FlushedByMove(p.fleet, m, w);
    SuppliedByMove(p, m);
    hide *;
    MoreReplies(p, m, w, FleetRuns.Next(p.fleet, m));
  }

  lemma SuppliedByMove(p: Plant, m: Move)
    requires Possible(p, Fleetwise(m))
    ensures m.Take? || m.Fire? ==>
      && m.worker in p.fleet.nodes && m.worker in FleetRuns.Next(p.fleet, m).nodes
      && Supplied(p, m.worker, m.interval, FleetRuns.Next(p.fleet, m))
  {
    hide NodeApplied, NodeFired, Supplied;
  }

  lemma MoreReplies(p: Plant, m: Move, w: string, g: Fleet)
    requires w in g.nodes && (w in p.fleet.nodes ==> RepliesReported(p.fleet.nodes[w], Reports(p, w)))
    requires w !in p.fleet.nodes ==> g.nodes[w].flushed == []
    requires w in p.fleet.nodes ==>
      || g.nodes[w].flushed == p.fleet.nodes[w].flushed
      || ((m.Take? || m.Fire?) && m.worker == w && g.nodes[w].flushed == p.fleet.nodes[w].flushed + [m.interval])
    requires (m.Take? || m.Fire?) && m.worker == w && w in p.fleet.nodes ==> Supplied(p, w, m.interval, g)
    ensures RepliesReported(g.nodes[w], Reports(p, w))
  {
  }

  lemma FleetKeeps(p: Plant, m: Move)
    requires PlantOk(p) && Possible(p, Fleetwise(m))
    ensures PlantOk(Next(p, Fleetwise(m)))
  {
    hide Schedulers.Sound, Schedulers.NewLoop, FleetRuns.Next, FleetRuns.Possible, RepliesReported, Supplied;
    NewLoopIsSound();
    var q := Next(p, Fleetwise(m));
    KeysByMove(p.fleet, m);
    forall w | w in q.fleet.nodes ensures RepliesReported(q.fleet.nodes[w], Reports(q, w)) {
      assert w in p.fleet.nodes ==> RepliesReported(p.fleet.nodes[w], Reports(p, w));
      MoverKeeps(p, m, w);
      if m.Join? && m.worker == w {
        JoinIsNew(p.fleet, m);
        assert Reports(q, w) == [] == Reports(p, w);
      }
    }
  }

  lemma JoinIsNew(f: Fleet, m: Move)
    requires FleetRuns.Possible(f, m) && m.Join?
    ensures m.worker !in f.nodes
  {
  }

  lemma KeysByMove(f: Fleet, m: Move)
    requires FleetRuns.Possible(f, m)
    ensures FleetRuns.Next(f, m).nodes.Keys == f.nodes.Keys + if m.Join? then {m.worker} else {}
  {
    RevisionsKeepCtrl(f);
    hide Woken, NodeApplied, NodeFired;
  }

  lemma {:induction false} PlantsKeep(p: Plant, moves: seq<PlantMove>)
    requires PlantOk(p) && Legal(p, moves)
    ensures PlantOk(After(p, moves))
    decreases |moves|
  {
    hide PlantOk, Possible, Hypotheses, Next;
    if moves == [] {
    } else {
      PlantsKeep(p, moves[..|moves| - 1]);
      var last := moves[|moves| - 1];
      if last.Fleetwise? {
        FleetKeeps(After(p, moves[..|moves| - 1]), last.m);
      } else {
        InsideKeeps(After(p, moves[..|moves| - 1]), last.worker, last.t);
      }
    }
  }

  // ----- The fleet's snapshot ----------------------------------------------------------------------

  /** The replies that have been delivered from this worker. */
  function DeliveredReplies(p: Plant, w: string): seq<Collecting.Report> {
    if w in p.fleet.nodes && p.fleet.nodes[w].delivered <= |Reports(p, w)|
    then Reports(p, w)[..p.fleet.nodes[w].delivered] else []
  }

  /** How many samples the worker's collector had accepted when the last of them was asked for. */
  function Mark(p: Plant, w: string): nat {
    var replies := DeliveredReplies(p, w);
    if replies == [] then 0 else replies[|replies| - 1].mark
  }

  /** What each worker's collector had accepted by then, in the order the workers joined. */
  ghost function AcceptedParts(p: Plant): (parts: seq<seq<Sample>>)
    ensures |parts| == |p.fleet.order|
  {
    seq(|p.fleet.order|, i requires 0 <= i < |p.fleet.order| => AcceptedBy(p, p.fleet.order[i]))
  }

  function AcceptedBy(p: Plant, w: string): seq<Sample> {
    if w in p.loops && Mark(p, w) <= |p.loops[w].collector.accepted| then p.loops[w].collector.accepted[..Mark(p, w)]
    else []
  }

  function DropsAmong(p: Plant, order: seq<string>): nat {
    if order == [] then 0
    else DropsAmong(p, order[..|order| - 1]) + Collecting.DropsReported(DeliveredReplies(p, order[|order| - 1]))
  }

  lemma {:induction false} FlattenConcat<T>(a: seq<seq<T>>, b: seq<seq<T>>)
    ensures Flatten(a + b) == Flatten(a) + Flatten(b)
    decreases |b|
  {
    if b == [] {
      assert a + b == a;
    } else {
      var n := |b| - 1;
      FlattenConcat(a, b[..n]);
      assert (a + b)[..|a| + n] == a + b[..n];
    }
  }

  /** Replies as intervals have the same samples and drops. */
  lemma {:induction false} IntervalsOfReplies(intervals: seq<Interval>, replies: seq<Collecting.Report>)
    requires |intervals| == |replies|
    requires forall i :: 0 <= i < |intervals| ==> intervals[i] == IntervalOf(replies[i])
    ensures Flatten(SamplesOf(intervals)) == Collecting.Reported(replies)
    ensures DropsOf(intervals) == Collecting.DropsReported(replies)
    decreases |intervals|
  {
    if intervals == [] {
    } else {
      var n := |intervals| - 1;
      IntervalsOfReplies(intervals[..n], replies[..n]);
      assert SamplesOf(intervals)[..n] == SamplesOf(intervals[..n]);
    }
  }

  lemma WorkerParts(p: Plant, w: string)
    requires PlantOk(p) && w in p.fleet.nodes && FlushedOk(p.fleet.nodes[w])
    requires p.fleet.nodes[w].delivered <= |p.fleet.nodes[w].ctrl.outbound|
    ensures Flatten(SamplesOf(DeliveredBy(p.fleet, w))) == AcceptedBy(p, w)
    ensures DropsOf(DeliveredBy(p.fleet, w)) == Collecting.DropsReported(DeliveredReplies(p, w))
  {
    hide Collecting.Invariant, Schedulers.Sound, Collecting.Reported, Collecting.DropsReported, SamplesOf, DropsOf,
      Carries;
    var n, c := p.fleet.nodes[w], p.loops[w].collector;
    assert RepliesReported(n, Reports(p, w)) && |n.flushed| == |n.ctrl.outbound|;
    LoopCollector(p.loops[w]);
    IntervalsOfReplies(DeliveredBy(p.fleet, w), DeliveredReplies(p, w));
    if n.delivered > 0 {
      Collecting.ReportsAreBarriers(c, n.delivered - 1);
    } else {
      NothingReplied();
      assert DeliveredReplies(p, w) == [];
    }
  }

  lemma NothingReplied()
    ensures Collecting.Reported([]) == []
  {
  }

  lemma LoopCollector(l: Schedulers.Loop)
    requires Schedulers.Sound(l)
    ensures Collecting.Invariant(l.collector)
  {
  }

  /** The samples and drops of the fleet, worker by worker. */
  lemma {:induction false} PartsAdd(p: Plant, parts: seq<seq<Interval>>, accepted: seq<seq<Sample>>, order: seq<string>)
    requires |parts| == |accepted| == |order|
    requires forall i :: 0 <= i < |order| ==>
      && Flatten(SamplesOf(parts[i])) == accepted[i]
      && DropsOf(parts[i]) == Collecting.DropsReported(DeliveredReplies(p, order[i]))
    ensures Flatten(SamplesOf(Flatten(parts))) == Flatten(accepted)
    ensures DropsOf(Flatten(parts)) == DropsAmong(p, order)
    decreases |order|
  {
    hide DeliveredReplies, Collecting.DropsReported, SamplesOf, DropsOf;
    if order == [] {
      NothingFlattens();
    } else {
      var n := |order| - 1;
      PartsAdd(p, parts[..n], accepted[..n], order[..n]);
      var before, last := Flatten(parts[..n]), parts[n];
      assert Flatten(parts) == before + last && Flatten(accepted) == Flatten(accepted[..n]) + accepted[n];
      hide Flatten;
      SamplesConcat(before, last);
      FlattenConcat(SamplesOf(before), SamplesOf(last));
      DropsConcat(before, last);
    }
  }

  lemma NothingFlattens()
    ensures SamplesOf([]) == [] && DropsOf([]) == 0
  {
  }

  lemma SamplesConcat(a: seq<Interval>, b: seq<Interval>)
    ensures SamplesOf(a + b) == SamplesOf(a) + SamplesOf(b)
  {
  }

  lemma {:induction false} DropsConcat(a: seq<Interval>, b: seq<Interval>)
    ensures DropsOf(a + b) == DropsOf(a) + DropsOf(b)
    decreases |b|
  {
    if b == [] {
      assert a + b == a;
    } else {
      var n := |b| - 1;
      DropsConcat(a, b[..n]);
      assert (a + b)[..|a| + n] == a + b[..n];
    }
  }

  /** A legal run of the fleet with its collectors starts with nobody joined. */
  ghost predicate PlantStarts(config: Coordination.Config, runId: string, leadTime: Duration, clock: Time, p: Plant) {
    RunStarts(config, runId, leadTime, clock, p.fleet) && p.loops == map[]
  }

  /** Whatever the workers, their schedulers, their collectors and the queues do, in every
      interleaving the fleet's snapshot is the recording of exactly the samples that the
      collectors had accepted when the replies delivered so far were asked for, and counts
      exactly the drops of those replies. */
  lemma FleetSnapshotIsAccepted(config: Coordination.Config, runId: string, leadTime: Duration, clock: Time,
                                start: Plant, moves: seq<PlantMove>)
    requires PlantStarts(config, runId, leadTime, clock, start) && Legal(start, moves)
    ensures var p := After(start, moves);
      RunOf(p.fleet).agg.snapshot
      == WithDrops(Recording.Recorded(Flatten(AcceptedParts(p))), DropsAmong(p, p.fleet.order))
  {
    var p := After(start, moves);
    FleetRunIsLegal(start, moves);
    NobodyIsOk(start);
    PlantsKeep(start, moves);
    assert Reachable(config, runId, leadTime, clock, p.fleet);
    hide Legal, After, FleetRuns.Legal, FleetRuns.After, RunStarts, PlantOk, Reachable, AcceptedBy, FleetOk, AllFlushed;
    FleetSnapshotIsRecording(config, runId, leadTime, clock, p.fleet);
    ReachableFlushes(config, runId, leadTime, clock, p.fleet);
    ReachableIsOk(config, runId, leadTime, clock, p.fleet);
    forall i | 0 <= i < |p.fleet.order|
      ensures Flatten(SamplesOf(PerWorkerIntervals(p.fleet)[i])) == AcceptedParts(p)[i]
      ensures DropsOf(PerWorkerIntervals(p.fleet)[i]) == Collecting.DropsReported(DeliveredReplies(p, p.fleet.order[i]))
    {
      ListedIsDelivered(p.fleet, i);
      WorkerParts(p, p.fleet.order[i]);
    }
    PartsAdd(p, PerWorkerIntervals(p.fleet), AcceptedParts(p), p.fleet.order);
  }

  lemma NobodyIsOk(p: Plant)
    requires p.fleet.nodes == map[] && p.loops == map[]
    ensures PlantOk(p)
  {
  }

  lemma ListedIsDelivered(f: Fleet, i: nat)
    requires FleetOk(f) && AllFlushed(f) && i < |f.order|
    ensures f.order[i] in f.nodes && FlushedOk(f.nodes[f.order[i]])
    ensures f.nodes[f.order[i]].delivered <= |f.nodes[f.order[i]].ctrl.outbound|
  {
    assert NodesOk(EnvOf(f), RunOf(f), f.order, f.nodes);
    assert f.order[i] in f.order;
    hide EnvOf, RunOf, FlushedOk;
    AssertWorker(EnvOf(f), RunOf(f), f.order, f.nodes, f.order[i]);
  }
}
