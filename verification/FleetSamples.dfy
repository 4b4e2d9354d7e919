/** From samples to the fleet's snapshot: what the workers collected is what is reported. */
module FleetSamples {
  import opened Wire
  import opened CountMaps
  import opened Snapshots
  import opened Recording
  import Coordination
  import opened Assignments
  import opened Aggregation
  import opened AggregatorHistory
  import opened RunControl
  import opened Deltas
  import opened FleetNode
  import opened FleetRuns
  import opened FleetDelivery
  import opened FleetTheorems

  // ----- Every emitted delta carries its interval ----------------------------------------------

  /** The worker's emitted deltas carry, one by one, what was collected in their intervals. */
  ghost predicate FlushedOk(n: Node) {
    && |n.flushed| == |n.ctrl.outbound|
    && forall i :: 0 <= i < |n.flushed| ==> Carries(n.ctrl.outbound[i], ContentOf(n.flushed[i]))
  }

  /** At most one delta was added, and it carries the content. */
  ghost predicate Adds(before: Controller, after: Controller, content: Snapshot) {
    || after.outbound == before.outbound
    || (|after.outbound| == |before.outbound| + 1 && after.outbound[..|before.outbound|] == before.outbound
        && Carries(after.outbound[|before.outbound|], content))
  }

  lemma FlushAdds(c: Controller, a: LoadAssignment, end: Time, content: Snapshot, final: bool)
    ensures Adds(c, Flush(c, a, end, content, final), content)
  {
  }

  lemma ApplyAdds(c: Controller, next: LoadAssignment, now: Time, content: Snapshot)
    requires c.interval > 0
    ensures Adds(c, RunControl.Apply(c, next, now, content, true).0, content)
  {
    if c.current.Some? {
      FlushAdds(c.(scheduling := false), c.current.value, Min(now, AsTime(c.current.value.deadline)), content, true);
    }
    hide Flush, Carries, NextMetricBoundary, Transition;
  }

  lemma FireAdds(c: Controller, content: Snapshot)
    requires c.interval > 0
    ensures Adds(c, Fired(c, content), content)
  {
    if c.current.Some? {
      FlushAdds(c.(scheduling := false), c.current.value, AsTime(c.current.value.deadline), content, true);
      FlushAdds(c, c.current.value, c.timerAt, content, false);
    }
    hide Flush, Carries, NextMetricBoundary;
  }

  lemma AddingKeepsFlushed(n: Node, m: Node, interval: Interval)
    requires FlushedOk(n) && Adds(n.ctrl, m.ctrl, ContentOf(interval))
    requires m.flushed == Flushed(n.flushed, n.ctrl, m.ctrl, interval)
    ensures FlushedOk(m)
  {
    hide Carries, ContentOf;
    forall i | 0 <= i < |m.flushed| ensures Carries(m.ctrl.outbound[i], ContentOf(m.flushed[i])) {
      if i < |n.flushed| && m.ctrl.outbound != n.ctrl.outbound {
        assert m.ctrl.outbound[..|n.ctrl.outbound|][i] == n.ctrl.outbound[i];
      }
    }
  }

  ghost predicate AllFlushed(f: Fleet) {
    forall w :: w in f.nodes ==> FlushedOk(f.nodes[w])
  }

  lemma RevisionsKeepCtrl(f: Fleet)
    ensures Woken(f).nodes == f.nodes
    ensures f.reconciling.Some? ==>
      && Published(f).nodes.Keys == f.nodes.Keys
      && forall w :: w in f.nodes ==>
          && Published(f).nodes[w].ctrl == f.nodes[w].ctrl && Published(f).nodes[w].flushed == f.nodes[w].flushed
          && Published(f).nodes[w].delivered == f.nodes[w].delivered
  {
    hide Coordination.Reconcile;
  }

  lemma MoveFlushes(f: Fleet, m: Move)
    requires AllFlushed(f) && Possible(f, m)
    ensures AllFlushed(Next(f, m))
  {
    RevisionsKeepCtrl(f);
    hide Woken, Published, Carries, ContentOf, RunControl.Apply, Fired, Adds, Flushed;
    match m {
      case Take(w, now, interval) =>
        var n := f.nodes[w];
        ApplyAdds(n.ctrl, n.inbox[0], now, ContentOf(interval));
        AddingKeepsFlushed(n, NodeApplied(n, now, interval).0, interval);
      case Fire(w, interval) =>
        var n := f.nodes[w];
        FireAdds(n.ctrl, ContentOf(interval));
        AddingKeepsFlushed(n, NodeFired(n, interval), interval);
      case _ =>
    }
  }

  lemma {:induction false} RunsFlush(f: Fleet, moves: seq<Move>)
    requires AllFlushed(f) && Legal(f, moves)
    ensures AllFlushed(After(f, moves))
    decreases |moves|
  {
    hide AllFlushed, Possible, Hypotheses, Next;
    if moves == [] {
    } else {
      RunsFlush(f, moves[..|moves| - 1]);
      MoveFlushes(After(f, moves[..|moves| - 1]), moves[|moves| - 1]);
    }
  }

  // ----- The fleet's snapshot ----------------------------------------------------------------------

  /** What a worker collected in the intervals whose deltas have been delivered. */
  function DeliveredBy(f: Fleet, w: string): seq<Interval> {
    if w in f.nodes && f.nodes[w].delivered <= |f.nodes[w].flushed| then f.nodes[w].flushed[..f.nodes[w].delivered] else []
  }

  /** The same for every worker, in the order in which they joined. */
  function PerWorkerIntervals(f: Fleet): (parts: seq<seq<Interval>>)
    ensures |parts| == |f.order|
  {
    seq(|f.order|, i requires 0 <= i < |f.order| => DeliveredBy(f, f.order[i]))
  }

  function DeliveredIntervals(f: Fleet): seq<Interval> {
    Flatten(PerWorkerIntervals(f))
  }

  function ContentsOf(intervals: seq<Interval>): (contents: seq<Snapshot>)
    ensures |contents| == |intervals|
  {
    seq(|intervals|, i requires 0 <= i < |intervals| => ContentOf(intervals[i]))
  }

  function SamplesOf(intervals: seq<Interval>): (parts: seq<seq<Sample>>)
    ensures |parts| == |intervals|
  {
    seq(|intervals|, i requires 0 <= i < |intervals| => intervals[i].samples)
  }

  function DropsOf(intervals: seq<Interval>): nat {
    if |intervals| == 0 then 0
    else DropsOf(intervals[..|intervals| - 1]) + intervals[|intervals| - 1].dropped
  }

  function WithDrops(s: Snapshot, drops: nat): Snapshot {
    s.(counters := s.counters.(droppedSamples := drops))
  }

  lemma {:induction false} RecordingDropsNothing(samples: seq<Sample>)
    ensures Recording.Recorded(samples).counters.droppedSamples == 0
    decreases |samples|
  {
    hide Increment, LatencyMicros;
    if |samples| == 0 {
    } else {
      RecordingDropsNothing(samples[..|samples| - 1]);
    }
  }

  lemma DropsAdd(a: Snapshot, b: Snapshot, i: nat, j: nat)
    requires a.counters.droppedSamples == b.counters.droppedSamples == 0
    ensures Add(WithDrops(a, i), WithDrops(b, j)) == WithDrops(Add(a, b), i + j)
    ensures Add(a, b).counters.droppedSamples == 0
  {
    hide Plus;
  }

  /** The contents of intervals add up to the recordings of their samples, and their drops. */
  lemma {:induction false} ContentsAdd(intervals: seq<Interval>)
    ensures Sum(ContentsOf(intervals)) == WithDrops(Sum(Recordings(SamplesOf(intervals))), DropsOf(intervals))
    ensures Sum(Recordings(SamplesOf(intervals))).counters.droppedSamples == 0
    decreases |intervals|
  {
    hide Add, Recording.Recorded;
    if |intervals| == 0 {
    } else {
      var init, last := intervals[..|intervals| - 1], intervals[|intervals| - 1];
      ContentsAdd(init);
      RecordingDropsNothing(last.samples);
      assert ContentsOf(intervals)[..|init|] == ContentsOf(init);
      assert Recordings(SamplesOf(intervals))[..|init|] == Recordings(SamplesOf(init));
      DropsAdd(Sum(Recordings(SamplesOf(init))), Recording.Recorded(last.samples), DropsOf(init), last.dropped);
    }
  }

  /** Totals of parts add up to the total of the whole. */
  lemma {:induction false} SumOfParts(parts: seq<seq<Interval>>, totals: seq<Snapshot>)
    requires |totals| == |parts| && forall i :: 0 <= i < |parts| ==> totals[i] == Sum(ContentsOf(parts[i]))
    ensures Sum(totals) == Sum(ContentsOf(Flatten(parts)))
    decreases |parts|
  {
    hide Add, ContentOf;
    if |parts| == 0 {
    } else {
      var n := |parts| - 1;
      SumOfParts(parts[..n], totals[..n]);
      var whole, last := Flatten(parts[..n]), parts[n];
      assert ContentsOf(whole + last) == ContentsOf(whole) + ContentsOf(last);
      SumConcat(ContentsOf(whole), ContentsOf(last));
    }
  }

  lemma DeliveredTotals(f: Fleet, run: Run, env: Env, w: string)
    requires NodesOk(env, run, f.order, f.nodes) && w in f.nodes && FlushedOk(f.nodes[w])
    ensures TotalOf(History(run.log, w)) == Sum(ContentsOf(DeliveredBy(f, w)))
  {
    hide Sum, History, ContentOf, TotalOf;
    var n := f.nodes[w];
    AssertWorker(env, run, f.order, f.nodes, w);
    AcceptedIsPrefix(run, w, n);
    hide DeliveredOk;
    var emitted, collected := Contents(n.ctrl.outbound)[..n.delivered], ContentsOf(DeliveredBy(f, w));
    forall i | 0 <= i < n.delivered ensures emitted[i] == collected[i] {
      assert Carries(n.ctrl.outbound[i], ContentOf(n.flushed[i]));
    }
    assert emitted == collected;
  }

  /** In every reachable state the fleet's snapshot is the recording of exactly the samples
      that were collected in the intervals delivered so far, as if one worker had recorded
      them all, and counts exactly their drops. */
  lemma FleetSnapshotIsRecording(config: Coordination.Config, runId: string, leadTime: Duration, clock: Time, f: Fleet)
    requires Reachable(config, runId, leadTime, clock, f)
    ensures var intervals := DeliveredIntervals(f);
      RunOf(f).agg.snapshot == WithDrops(Recording.Recorded(Flatten(SamplesOf(intervals))), DropsOf(intervals))
  {
    ReachableIsOk(config, runId, leadTime, clock, f);
    ReachableFlushes(config, runId, leadTime, clock, f);
    hide Reachable;
    var env, run, intervals := EnvOf(f), RunOf(f), DeliveredIntervals(f);
    ViewFleet(f);
    hide FleetOk, EnvOf, RunOf, CenterOk, AggregatorHistory.Consistent, Sum, Contents, ContentsOf, SamplesOf, Flatten,
      Recording.Recorded, History, TotalOf, WorkerOk, DeliveredBy, Fits, Exact;
    FleetIsTotal(run);
    LogSplitsByWorker(run.log, f.order);
    var totals := PerWorker(run.log, f.order);
    forall i | 0 <= i < |f.order| ensures totals[i] == Sum(ContentsOf(PerWorkerIntervals(f)[i])) {
      DeliveredTotals(f, run, env, f.order[i]);
    }
    SumOfParts(PerWorkerIntervals(f), totals);
    ContentsAdd(intervals);
    SumIsRecording(intervals, run.agg.snapshot);
  }

  /** A total that fits has not wrapped, so it is one recording of all the samples. */
  lemma SumIsRecording(intervals: seq<Interval>, total: Snapshot)
    requires total == WithDrops(Sum(Recordings(SamplesOf(intervals))), DropsOf(intervals)) && Fits(total)
    requires Sum(Recordings(SamplesOf(intervals))).counters.droppedSamples == 0
    ensures total == WithDrops(Recording.Recorded(Flatten(SamplesOf(intervals))), DropsOf(intervals))
  {
    hide Sum, Exact, Recording.Recorded, Flatten, SamplesOf;
    var parts := SamplesOf(intervals);
    SumOfRecordings(parts);
    RecordedIsExact(Flatten(parts));
    assert Values(total.counters)[6] == total.counters.bytesRead;
    assert Wrap(Sum(Recordings(parts))) == Sum(Recordings(parts));
  }

  lemma ReachableFlushes(config: Coordination.Config, runId: string, leadTime: Duration, clock: Time, f: Fleet)
    requires Reachable(config, runId, leadTime, clock, f)
    ensures AllFlushed(f)
  {
    var start, moves :| RunStarts(config, runId, leadTime, clock, start) && Legal(start, moves) && f == After(start, moves);
    RunsFlush(start, moves);
    hide Legal, After;
  }
}
