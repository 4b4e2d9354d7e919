/** What holds after any sequence of recorded revisions and delivered messages. */
module AggregatorHistory {
  import opened Wire
  import opened CountMaps
  import opened Snapshots
  import opened Aggregation

  /** One accepted delta, with the window it was accepted against. */
  datatype Entry = Entry(worker: string, delta: MetricsDelta, window: Window)

  /** An aggregator together with everything it has accepted, in order. */
  datatype Run = Run(agg: Aggregate, log: seq<Entry>)

  datatype Message =
    | Revision(revision: nat, assignments: map<string, LoadAssignment>)
    | Delivery(worker: string, delta: Option<MetricsDelta>)

  ghost function Step(run: Run, m: Message): Run {
    match m
    case Revision(revision, assignments) => run.(agg := WithRevision(run.agg, revision, assignments))
    case Delivery(worker, delta) =>
      var next := Accepted(run.agg, worker, delta);
      if Judge(run.agg, worker, delta).Granted?
      then Run(next, run.log + [Entry(worker, delta.value, run.agg.assignments[delta.value.revision][worker])])
      else Run(next, run.log)
  }

  ghost function Play(runId: string, messages: seq<Message>): Run {
    if messages == [] then Run(NewAggregate(runId), [])
    else Step(Play(runId, messages[..|messages| - 1]), messages[|messages| - 1])
  }

  /** The accepted deltas of one worker. */
  function History(log: seq<Entry>, worker: string): seq<Entry> {
    if log == [] then []
    else
      var last := log[|log| - 1];
      History(log[..|log| - 1], worker) + if last.worker == worker then [last] else []
  }

  lemma HistoryAppend(log: seq<Entry>, e: Entry, worker: string)
    ensures History(log + [e], worker) == History(log, worker) + if e.worker == worker then [e] else []
  {
    assert (log + [e])[..|log|] == log;
  }

  function Contributions(log: seq<Entry>): (snapshots: seq<Snapshot>)
    ensures |snapshots| == |log|
  {
    seq(|log|, i requires 0 <= i < |log| => Decoded(log[i].delta))
  }

  function TotalOf(log: seq<Entry>): Snapshot {
    Sum(Contributions(log))
  }

  lemma TotalAppend(log: seq<Entry>, e: Entry)
    ensures TotalOf(log + [e]) == Add(TotalOf(log), Decoded(e.delta))
  {
    hide Sum, Add;
    assert Contributions(log + [e]) == Contributions(log) + [Decoded(e.delta)];
    SumAppend(Contributions(log), Decoded(e.delta));
  }

  function Start(e: Entry): Time {
    AsTime(e.delta.intervalStart)
  }

  function End(e: Entry): Time {
    AsTime(e.delta.intervalEnd)
  }

  // ----- The invariant --------------------------------------------------------------------

  /** An accepted delta by itself: its number, its interval and its revision. */
  ghost predicate EntryValid(e: Entry, i: nat) {
    && e.delta.sequence == (i + 1) % TWO_64
    && e.delta.revision > 0
    && 0 <= Start(e) < End(e) <= Start(e) + SECOND
    && e.window.startsAt <= Start(e) && End(e) <= e.window.deadline
    && (!e.delta.finalForRevision ==>
          End(e) != e.window.deadline && Sub(End(e), e.window.startsAt) % SECOND == 0)
    && SnapshotProblem(e.delta) == None
  }

  /** An earlier delta before a later one: intervals in order, revisions never falling,
      and nothing more for a revision after its final marker. */
  ghost predicate Precedes(e: Entry, f: Entry) {
    && End(e) <= Start(f)
    && e.delta.revision <= f.delta.revision
    && (e.delta.finalForRevision ==> e.delta.revision < f.delta.revision)
  }

  ghost predicate Shape(h: seq<Entry>) {
    && (forall i :: 0 <= i < |h| ==> EntryValid(h[i], i))
    && (forall i, j :: 0 <= i < j < |h| ==> Precedes(h[i], h[j]))
  }

  /** The entry finishes its revision at the deadline. */
  ghost predicate Finishes(e: Entry, revision: nat) {
    e.delta.finalForRevision && e.delta.revision == revision && End(e) == e.window.deadline
  }

  /** The worker's state summarises its accepted deltas. */
  ghost predicate Follows(state: WorkerState, h: seq<Entry>) {
    && h != []
    && var last := h[|h| - 1];
      && state.lastSequence == |h| % TWO_64
      && state.lastDelta == Some(last.delta)
      && state.lastInterval == End(last)
      && state.lastRevision == last.delta.revision
      && state.closedRevision <= state.lastRevision
      && (state.closedRevision == state.lastRevision <==> last.delta.finalForRevision)
      && state.snapshot == TotalOf(h)
  }

  ghost predicate WorkerConsistent(run: Run, worker: string) {
    var h := History(run.log, worker);
    && (worker in run.agg.workers <==> h != [])
    && Shape(h)
    && (h != [] ==> Follows(run.agg.workers[worker], h) && Addressed(h[|h| - 1].delta, run.agg.runId, worker))
  }

  /** The delta names its run and the worker whose session it came through. */
  ghost predicate Addressed(d: MetricsDelta, runId: string, worker: string) {
    d.runId == runId && d.workerId == worker && Trim(worker) != ""
  }

  /** A recorded finish is backed by a delta accepted as final at the deadline. */
  ghost predicate FinishBacked(run: Run, worker: string) {
    worker in run.agg.workers && run.agg.workers[worker].finalRevision != 0 ==>
      exists e :: e in History(run.log, worker) && Finishes(e, run.agg.workers[worker].finalRevision)
  }

  /** The latest windows are the ones recorded for their revision. */
  ghost predicate LatestRecorded(agg: Aggregate) {
    forall w :: w in agg.latest ==>
      var revision := agg.latest[w].revision;
      revision in agg.assignments && agg.assignments[revision] == agg.latest
  }

  /** The fleet snapshot is the exact sum of everything accepted, and it fits. */
  ghost predicate FleetConserved(run: Run) {
    run.agg.snapshot == TotalOf(run.log) && Fits(run.agg.snapshot)
  }

  ghost predicate Consistent(run: Run) {
    && FleetConserved(run)
    && LatestRecorded(run.agg)
    && (forall w :: WorkerConsistent(run, w) && FinishBacked(run, w))
  }

  // ----- One step keeps it ------------------------------------------------------------------

  /** What the checks before a commit establish about the new entry. */
  lemma GrantedEntry(run: Run, worker: string, d: MetricsDelta)
    requires WorkerConsistent(run, worker) && Judge(run.agg, worker, Some(d)).Granted?
    ensures var h, e := History(run.log, worker), Entry(worker, d, run.agg.assignments[d.revision][worker]);
      && EntryValid(e, |h|)
      && (h != [] ==> Precedes(h[|h| - 1], e))
      && d.revision != StateOf(run.agg, worker).closedRevision
      && Addressed(d, run.agg.runId, worker)
  {
    hide SnapshotProblem, Merged, Decoded, History, RequiresContiguous, IntervalProblem, WorkerConsistent, StateOf, Trim;
    var h, state := History(run.log, worker), StateOf(run.agg, worker);
    var window := run.agg.assignments[d.revision][worker];
    StateFollows(run, worker);
    GrantedInterval(d, window, state.lastInterval, RequiresContiguous(run.agg.assignments, worker, state.lastRevision, d.revision),
                    LatestRevision(run.agg, worker) > d.revision);
    NextNumber(|h|);
  }

  /** What the worker's state says about its history. */
  lemma StateFollows(run: Run, worker: string)
    requires WorkerConsistent(run, worker)
    ensures var h, state := History(run.log, worker), StateOf(run.agg, worker);
      && (h == [] ==> state == NEW_WORKER)
      && (h != [] ==>
            var last := h[|h| - 1];
            && state.lastSequence == |h| % TWO_64 && state.lastInterval == End(last) > 0
            && state.lastRevision == last.delta.revision > 0 && state.closedRevision <= state.lastRevision
            && state.lastDelta == Some(last.delta)
            && (last.delta.finalForRevision <==> state.closedRevision == state.lastRevision))
  {
    hide SnapshotProblem, TotalOf, History;
    var h := History(run.log, worker);
    if h != [] {
      assert EntryValid(h[|h| - 1], |h| - 1);
    }
  }

  lemma NextNumber(n: nat)
    ensures (n % TWO_64 + 1) % TWO_64 == (n + 1) % TWO_64
  {
  }

  /** What passing the interval checks says. */
  lemma GrantedInterval(d: MetricsDelta, window: Window, last: Time, contiguous: bool, partialAllowed: bool)
    requires IntervalProblem(d, window, last, contiguous, partialAllowed) == None
    ensures var start, end := AsTime(d.intervalStart), AsTime(d.intervalEnd);
      && 0 <= start < end <= start + SECOND && window.startsAt <= start && end <= window.deadline
      && (!d.finalForRevision ==> end != window.deadline && Sub(end, window.startsAt) % SECOND == 0)
      && (last != 0 ==> last <= start)
  {
  }

  lemma ShapeAppend(h: seq<Entry>, e: Entry)
    requires Shape(h) && EntryValid(e, |h|)
    requires h != [] ==> Precedes(h[|h| - 1], e)
    ensures Shape(h + [e])
  {
    hide SnapshotProblem;
    var next := h + [e];
    forall i, j | 0 <= i < j < |next| ensures Precedes(next[i], next[j]) {
      if j == |h| && i < |h| - 1 {
        assert Precedes(h[i], h[|h| - 1]);
        assert EntryValid(h[|h| - 1], |h| - 1);
      }
    }
  }

  /** The entry a delta becomes when it is accepted. */
  ghost function EntryOf(run: Run, worker: string, d: MetricsDelta): Entry
    requires d.revision in run.agg.assignments && worker in run.agg.assignments[d.revision]
  {
    Entry(worker, d, run.agg.assignments[d.revision][worker])
  }

  lemma StepGranted(run: Run, worker: string, d: MetricsDelta)
    requires Judge(run.agg, worker, Some(d)).Granted?
    ensures d.revision in run.agg.assignments && worker in run.agg.assignments[d.revision]
    ensures Step(run, Delivery(worker, Some(d)))
            == Run(Committed(run.agg, worker, d), run.log + [EntryOf(run, worker, d)])
  {
    hide JudgeAssigned;
  }

  lemma NothingTotals()
    ensures TotalOf([]) == EMPTY
  {
    assert Contributions([]) == [];
  }

  lemma AdvancedFollows(run: Run, worker: string, d: MetricsDelta, h: seq<Entry>, e: Entry)
    requires h == History(run.log, worker) && WorkerConsistent(run, worker)
    requires e.delta == d && EntryValid(e, |h|) && d.revision != StateOf(run.agg, worker).closedRevision
    requires h != [] ==> Precedes(h[|h| - 1], e)
    ensures Follows(Advanced(run.agg, worker, d), h + [e])
  {
    hide Shape, TotalOf, Add, History, SnapshotProblem, Decoded;
    TotalAppend(h, e);
    if h == [] {
      NothingTotals();
    }
    assert (h + [e])[|h|] == e;
  }

  lemma CommitKeepsOwner(run: Run, worker: string, d: MetricsDelta)
    requires WorkerConsistent(run, worker) && Judge(run.agg, worker, Some(d)).Granted?
    ensures WorkerConsistent(Step(run, Delivery(worker, Some(d))), worker)
  {
    StepGranted(run, worker, d);
    GrantedEntry(run, worker, d);
    var h, e := History(run.log, worker), EntryOf(run, worker, d);
    assert Shape(h);
    hide *;
    ShapeAppend(h, e);
    AdvancedFollows(run, worker, d, h, e);
    OwnerConsistent(run, worker, d, h, e);
  }

  lemma OwnerConsistent(run: Run, worker: string, d: MetricsDelta, h: seq<Entry>, e: Entry)
    requires h == History(run.log, worker) && e.worker == worker
    requires Shape(h + [e]) && Follows(Advanced(run.agg, worker, d), h + [e])
    requires e.delta == d && Addressed(d, run.agg.runId, worker)
    ensures WorkerConsistent(Run(Committed(run.agg, worker, d), run.log + [e]), worker)
  {
    hide Shape, Follows, Advanced, Add, History, Addressed;
    HistoryAppend(run.log, e, worker);
    assert (h + [e])[|h|] == e;
  }

  lemma CommitKeepsOther(run: Run, worker: string, d: MetricsDelta, w: string)
    requires WorkerConsistent(run, w) && w != worker && Judge(run.agg, worker, Some(d)).Granted?
    ensures WorkerConsistent(Step(run, Delivery(worker, Some(d))), w)
  {
    StepGranted(run, worker, d);
    hide Judge, Step, Shape, Follows, Advanced, Add, History, Decoded;
    HistoryAppend(run.log, EntryOf(run, worker, d), w);
    assert History(run.log, w) + [] == History(run.log, w);
  }

  lemma CommitKeepsFinish(run: Run, worker: string, d: MetricsDelta, w: string)
    requires FinishBacked(run, w) && LatestRecorded(run.agg) && WorkerConsistent(run, w)
    requires Judge(run.agg, worker, Some(d)).Granted?
    ensures FinishBacked(Step(run, Delivery(worker, Some(d))), w)
  {
    StepGranted(run, worker, d);
    var next := Step(run, Delivery(worker, Some(d)));
    hide Judge, Step, Shape, TotalOf, Add, History, Follows;
    var e := EntryOf(run, worker, d);
    HistoryAppend(run.log, e, w);
    var h := History(run.log, w);
    if w in next.agg.workers && next.agg.workers[w].finalRevision != 0 {
      var revision := next.agg.workers[w].finalRevision;
      if w in run.agg.workers && run.agg.workers[w].finalRevision == revision {
        var f :| f in h && Finishes(f, revision);
        assert f in History(next.log, w);
      } else {
        assert w == worker && Finishes(e, revision);
        assert e in h + [e];
      }
    }
  }

  lemma MergeGranted(a: Aggregate, worker: string, d: MetricsDelta)
    requires Judge(a, worker, Some(d)).Granted?
    ensures Merged([a.snapshot, Decoded(d)]).Some?
  {
    hide Merged, Decoded, IntervalProblem, SnapshotProblem, RequiresContiguous;
  }

  lemma CommitKeepsFleet(run: Run, worker: string, d: MetricsDelta)
    requires FleetConserved(run) && Judge(run.agg, worker, Some(d)).Granted?
    ensures FleetConserved(Step(run, Delivery(worker, Some(d))))
  {
    StepGranted(run, worker, d);
    MergeGranted(run.agg, worker, d);
    hide Judge, Step, TotalOf, Add, Fits, Decoded, Sum;
    SumSmall(run.agg.snapshot, Decoded(d));
    TotalAppend(run.log, EntryOf(run, worker, d));
  }

  lemma StepKeepsConsistent(run: Run, m: Message)
    requires Consistent(run)
    ensures Consistent(Step(run, m))
  {
    var next := Step(run, m);
    match m {
      case Revision(revision, assignments) =>
        hide FleetConserved, WorkerConsistent, FinishBacked;
        RecordKeepsWorkers(run, next);
      case Delivery(worker, delta) =>
        if Judge(run.agg, worker, delta).Granted? {
          hide FleetConserved, WorkerConsistent, FinishBacked, Judge;
          CommitKeepsFleet(run, worker, delta.value);
          forall w ensures WorkerConsistent(next, w) && FinishBacked(next, w) {
            if w == worker {
              CommitKeepsOwner(run, worker, delta.value);
            } else {
              CommitKeepsOther(run, worker, delta.value, w);
            }
            CommitKeepsFinish(run, worker, delta.value, w);
          }
          StepGranted(run, worker, delta.value);
        } else {
          hide FleetConserved, WorkerConsistent, FinishBacked, Judge;
          RecordKeepsWorkers(run, next);
        }
    }
  }

  /** Steps that accept nothing keep everything about accepted deltas. */
  lemma RecordKeepsWorkers(run: Run, next: Run)
    requires next.log == run.log && next.agg.workers == run.agg.workers && next.agg.snapshot == run.agg.snapshot
    requires next.agg.runId == run.agg.runId
    ensures FleetConserved(run) ==> FleetConserved(next)
    ensures forall w :: WorkerConsistent(run, w) ==> WorkerConsistent(next, w)
    ensures forall w :: FinishBacked(run, w) ==> FinishBacked(next, w)
  {
  }

  /** Conservation and history shape hold after any messages whatever. */
  lemma {:induction false} EveryPlayIsConsistent(runId: string, messages: seq<Message>)
    ensures Consistent(Play(runId, messages))
    decreases |messages|
  {
    hide Step;
    if messages == [] {
      NothingTotals();
    } else {
      hide Consistent;
      EveryPlayIsConsistent(runId, messages[..|messages| - 1]);
      StepKeepsConsistent(Play(runId, messages[..|messages| - 1]), messages[|messages| - 1]);
    }
  }

  /** Conservation, spelled out: after any messages the fleet snapshot is the exact sum of
      the accepted deltas, and each worker's snapshot that of its own. */
  lemma AcceptedIsConserved(runId: string, messages: seq<Message>)
    ensures var run := Play(runId, messages);
      && run.agg.snapshot == TotalOf(run.log) && Fits(run.agg.snapshot)
      && (forall w :: w in run.agg.workers <==> History(run.log, w) != [])
      && (forall w :: w in run.agg.workers ==> run.agg.workers[w].snapshot == TotalOf(History(run.log, w)))
  {
    EveryPlayIsConsistent(runId, messages);
    hide Play, Shape, TotalOf, History;
    var run := Play(runId, messages);
    forall w
      ensures w in run.agg.workers <==> History(run.log, w) != []
      ensures w in run.agg.workers ==> run.agg.workers[w].snapshot == TotalOf(History(run.log, w))
    {
      assert WorkerConsistent(run, w);
    }
  }

  /** History shape, spelled out: a worker's accepted deltas are numbered from one without
      gaps, lie inside their windows in disjoint increasing intervals of at most a second,
      have nondecreasing revisions, and have nothing for a revision after its final nor
      anything after the deadline. */
  lemma HistoryIsOrdered(runId: string, messages: seq<Message>, w: string, j: nat)
    requires j < |History(Play(runId, messages).log, w)|
    ensures var h := History(Play(runId, messages).log, w);
      && h[j].delta.sequence == (j + 1) % TWO_64 && h[j].delta.revision > 0
      && h[j].window.startsAt <= Start(h[j]) < End(h[j]) <= h[j].window.deadline
      && End(h[j]) - Start(h[j]) <= SECOND
      && forall i :: 0 <= i < j ==>
          && End(h[i]) <= Start(h[j]) && End(h[i]) < h[j].window.deadline
          && h[i].delta.revision <= h[j].delta.revision
          && (h[i].delta.finalForRevision ==> h[i].delta.revision < h[j].delta.revision)
  {
    EveryPlayIsConsistent(runId, messages);
    assert WorkerConsistent(Play(runId, messages), w);
    var h := History(Play(runId, messages).log, w);
    hide Play, History, SnapshotProblem;
    assert EntryValid(h[j], j);
    forall i | 0 <= i < j
      ensures End(h[i]) <= Start(h[j]) && h[i].delta.revision <= h[j].delta.revision
      ensures h[i].delta.finalForRevision ==> h[i].delta.revision < h[j].delta.revision
    {
      assert Precedes(h[i], h[j]);
    }
  }

  // ----- Conservation across workers ---------------------------------------------------------

  /** Per-worker totals of a log, in the order the workers are listed. */
  function PerWorker(log: seq<Entry>, workers: seq<string>): (totals: seq<Snapshot>)
    ensures |totals| == |workers|
  {
    seq(|workers|, i requires 0 <= i < |workers| => TotalOf(History(log, workers[i])))
  }

  ghost predicate ListsOnce(workers: seq<string>) {
    forall i, j :: 0 <= i < j < |workers| ==> workers[i] != workers[j]
  }

  lemma {:induction false} EmptiesTotal(totals: seq<Snapshot>)
    requires forall i :: 0 <= i < |totals| ==> totals[i] == EMPTY
    ensures Sum(totals) == EMPTY
    decreases |totals|
  {
    hide Add;
    if totals == [] {
    } else {
      EmptiesTotal(totals[..|totals| - 1]);
      AddLaws(EMPTY, EMPTY, EMPTY);
    }
  }

  lemma {:induction false} LogSplitsByWorker(log: seq<Entry>, workers: seq<string>)
    requires ListsOnce(workers) && forall i :: 0 <= i < |log| ==> log[i].worker in workers
    ensures Sum(PerWorker(log, workers)) == TotalOf(log)
    decreases |log|
  {
    hide Add, Sum, TotalOf, Decoded;
    NothingTotals();
    if log == [] {
      EmptiesTotal(PerWorker(log, workers));
    } else {
      var init, e := log[..|log| - 1], log[|log| - 1];
      assert log == init + [e];
      LogSplitsByWorker(init, workers);
      assert e.worker in workers;
      var j :| 0 <= j < |workers| && workers[j] == e.worker;
      var before, after := PerWorker(init, workers), PerWorker(log, workers);
      forall i | 0 <= i < |workers|
        ensures after[i] == if i == j then Add(before[j], Decoded(e.delta)) else before[i]
      {
        HistoryAppend(init, e, workers[i]);
        if i == j {
          TotalAppend(History(init, workers[j]), e);
        } else {
          assert History(init, workers[i]) + [] == History(init, workers[i]);
        }
      }
      assert after == before[j := Add(before[j], Decoded(e.delta))];
      SumUpdate(before, j, Decoded(e.delta));
      TotalAppend(init, e);
    }
  }

  lemma {:induction false} LogWorkerHasHistory(log: seq<Entry>, i: nat)
    requires i < |log|
    ensures History(log, log[i].worker) != []
    decreases |log|
  {
    if i < |log| - 1 {
      LogWorkerHasHistory(log[..|log| - 1], i);
    }
  }

  /** The fleet snapshot is the sum of the per-worker snapshots, each counted once. */
  lemma FleetIsSumOfWorkers(run: Run, workers: seq<string>)
    requires Consistent(run) && ListsOnce(workers)
    requires forall w :: w in workers <==> w in run.agg.workers
    ensures run.agg.snapshot
            == Sum(seq(|workers|, i requires 0 <= i < |workers| => run.agg.workers[workers[i]].snapshot))
  {
    hide Sum, TotalOf, History, Shape;
    forall i | 0 <= i < |run.log| ensures run.log[i].worker in workers {
      LogWorkerHasHistory(run.log, i);
      assert WorkerConsistent(run, run.log[i].worker);
    }
    LogSplitsByWorker(run.log, workers);
    var snapshots := seq(|workers|, i requires 0 <= i < |workers| => run.agg.workers[workers[i]].snapshot);
    forall i | 0 <= i < |workers| ensures snapshots[i] == PerWorker(run.log, workers)[i] {
      assert WorkerConsistent(run, workers[i]);
    }
    assert snapshots == PerWorker(run.log, workers);
  }

  lemma {:induction false} WorkerBelowFleet(log: seq<Entry>, w: string)
    ensures Below(TotalOf(History(log, w)), TotalOf(log))
    decreases |log|
  {
    hide Add, Sum, TotalOf, Decoded, Below;
    if log == [] {
      NothingTotals();
      BelowReflexive(EMPTY);
    } else {
      var init, e := log[..|log| - 1], log[|log| - 1];
      assert log == init + [e];
      WorkerBelowFleet(init, w);
      HistoryAppend(init, e, w);
      TotalAppend(init, e);
      var h, d := History(init, w), Decoded(e.delta);
      BelowReflexive(d);
      if e.worker == w {
        TotalAppend(h, e);
        BelowAdd(TotalOf(h), TotalOf(init), d, d);
      } else {
        assert h + [] == h;
        BelowAdd(TotalOf(h), TotalOf(init), EMPTY, d);
        AddLaws(TotalOf(h), EMPTY, EMPTY);
      }
    }
  }

  lemma StateIsTotal(run: Run, w: string)
    requires Consistent(run)
    ensures StateOf(run.agg, w).snapshot == TotalOf(History(run.log, w))
  {
    hide TotalOf, History, Shape, FleetConserved;
    NothingTotals();
    assert WorkerConsistent(run, w);
  }

  lemma OwnMergeFollows(log: seq<Entry>, worker: string, d: Snapshot)
    requires Merged([TotalOf(log), d]).Some?
    ensures Merged([TotalOf(History(log, worker)), d]).Some?
  {
    hide Add, TotalOf, Below, Fits, History;
    var fleet, own := TotalOf(log), TotalOf(History(log, worker));
    WorkerBelowFleet(log, worker);
    BelowReflexive(d);
    BelowAdd(own, fleet, d, d);
    SumSmall(fleet, d);
    SumSmall(own, d);
    BelowFits(Add(own, d), Add(fleet, d));
  }

  lemma FleetIsTotal(run: Run)
    requires Consistent(run)
    ensures run.agg.snapshot == TotalOf(run.log) && Fits(run.agg.snapshot)
  {
  }

  /** Once the fleet merge of a delta succeeds the worker's own merge cannot fail. */
  lemma SecondMergeCannotFail(run: Run, worker: string, delta: Option<MetricsDelta>)
    requires Consistent(run)
    ensures Judge(run.agg, worker, delta) != Refused(WorkerOverflow)
  {
    hide Merged, Decoded, Consistent, RequiresContiguous, IntervalProblem, SnapshotProblem, TotalOf;
    if delta.Some? && Merged([run.agg.snapshot, Decoded(delta.value)]).Some? {
      FleetIsTotal(run);
      StateIsTotal(run, worker);
      OwnMergeFollows(run.log, worker, Decoded(delta.value));
    }
    NoWorkerOverflow(run.agg, worker, delta);
  }

  lemma NoWorkerOverflow(a: Aggregate, worker: string, delta: Option<MetricsDelta>)
    requires delta.Some? && Merged([a.snapshot, Decoded(delta.value)]).Some? ==>
      Merged([StateOf(a, worker).snapshot, Decoded(delta.value)]).Some?
    ensures Judge(a, worker, delta) != Refused(WorkerOverflow)
  {
    hide Merged, Decoded, RequiresContiguous, StatusCodesValid;
  }

  /** Copying the fleet snapshot or any worker's snapshot by merging it alone always
      succeeds and returns it unchanged. */
  lemma ClonesCannotFail(run: Run, worker: string)
    requires Consistent(run)
    ensures Merged([run.agg.snapshot]) == Some(run.agg.snapshot)
    ensures worker in run.agg.workers ==>
      Merged([run.agg.workers[worker].snapshot]) == Some(run.agg.workers[worker].snapshot)
  {
    hide Add, Sum, TotalOf, Below, Fits, History, Consistent;
    var fleet, own := run.agg.snapshot, StateOf(run.agg, worker).snapshot;
    FleetIsTotal(run);
    StateIsTotal(run, worker);
    WorkerBelowFleet(run.log, worker);
    BelowFits(own, fleet);
    SumSmall(fleet, fleet);
    SumSmall(own, own);
  }

  // ----- Redelivery, refusal and finality --------------------------------------------------

  /** An accepted delta delivered again changes nothing, whatever revisions were
      recorded and whichever other workers reported in between. */
  lemma RedeliveryChangesNothing(run: Run, worker: string, d: MetricsDelta)
    requires Consistent(run) && worker in run.agg.workers && run.agg.workers[worker].lastDelta == Some(d)
    requires d.revision in run.agg.assignments && worker in run.agg.assignments[d.revision]
    ensures Step(run, Delivery(worker, Some(d))) == run
  {
    assert WorkerConsistent(run, worker);
    var h := History(run.log, worker);
    assert EntryValid(h[|h| - 1], |h| - 1);
    hide IntervalProblem, SnapshotProblem, Merged;
  }

  /** A delta is refused as a whole: the totals, every worker and the history stay,
      and exactly one violation is added. */
  lemma RefusalLeavesNoTrace(run: Run, worker: string, delta: Option<MetricsDelta>)
    requires Judge(run.agg, worker, delta).Refused?
    ensures var next := Step(run, Delivery(worker, delta));
      && next.log == run.log && next.agg.workers == run.agg.workers && next.agg.snapshot == run.agg.snapshot
      && next.agg.assignments == run.agg.assignments && next.agg.latest == run.agg.latest
      && |next.agg.violations| == |run.agg.violations| + 1
      && next.agg.violations[..|run.agg.violations|] == run.agg.violations
  {
    hide Judge;
  }

  /** The run without its violations and its wakeup token. */
  function Unmarked(run: Run): Run {
    run.(agg := run.agg.(violations := [], changed := false))
  }

  lemma UnmarkedVerdict(a: Run, b: Run, worker: string, delta: Option<MetricsDelta>)
    requires Unmarked(a) == Unmarked(b)
    ensures Judge(a.agg, worker, delta) == Judge(b.agg, worker, delta)
  {
    hide RequiresContiguous, IntervalProblem, SnapshotProblem, Merged, Decoded;
  }

  lemma UnmarkedStep(a: Run, b: Run, m: Message)
    requires Unmarked(a) == Unmarked(b)
    ensures Unmarked(Step(a, m)) == Unmarked(Step(b, m))
    ensures |Step(a, m).agg.violations| - |a.agg.violations| == |Step(b, m).agg.violations| - |b.agg.violations|
  {
    if m.Delivery? {
      UnmarkedVerdict(a, b, m.worker, m.delta);
    }
    hide Judge, Add, Decoded;
  }

  /** A refused delta might as well not have been sent: whatever follows, everything is as
      without it, every later verdict included, but for the one violation. */
  lemma {:induction false} RefusedIsInvisible(
    runId: string, before: seq<Message>, worker: string, delta: Option<MetricsDelta>, after: seq<Message>)
    requires Judge(Play(runId, before).agg, worker, delta).Refused?
    ensures var refused, without := Play(runId, before + [Delivery(worker, delta)] + after), Play(runId, before + after);
      && Unmarked(refused) == Unmarked(without)
      && |refused.agg.violations| == |without.agg.violations| + 1
    decreases |after|
  {
    hide Judge, Step, Play, Unmarked;
    var m := Delivery(worker, delta);
    if after == [] {
      assert before + [m] + after == before + [m] && before + after == before;
      PlaysOn(runId, before, m);
      RefusedMarks(Play(runId, before), worker, delta);
    } else {
      var init, last := after[..|after| - 1], after[|after| - 1];
      RefusedIsInvisible(runId, before, worker, delta, init);
      assert before + [m] + after == before + [m] + init + [last];
      assert before + after == before + init + [last];
      PlaysOn(runId, before + [m] + init, last);
      PlaysOn(runId, before + init, last);
      UnmarkedStep(Play(runId, before + [m] + init), Play(runId, before + init), last);
    }
  }

  lemma PlaysOn(runId: string, messages: seq<Message>, m: Message)
    ensures Play(runId, messages + [m]) == Step(Play(runId, messages), m)
  {
    hide Step;
    assert (messages + [m])[..|messages|] == messages;
  }

  lemma RefusedMarks(run: Run, worker: string, delta: Option<MetricsDelta>)
    requires Judge(run.agg, worker, delta).Refused?
    ensures var next := Step(run, Delivery(worker, delta));
      Unmarked(next) == Unmarked(run) && |next.agg.violations| == |run.agg.violations| + 1
  {
    hide Judge;
  }

  /** After an interval that ends at the deadline, a worker whose later revisions keep
      that deadline has nothing new accepted. */
  lemma NothingAfterDeadline(run: Run, worker: string, d: MetricsDelta)
    requires Consistent(run) && worker in run.agg.workers
    requires d.revision in run.agg.assignments && worker in run.agg.assignments[d.revision]
    requires run.agg.assignments[d.revision][worker].deadline == run.agg.workers[worker].lastInterval
    ensures !Judge(run.agg, worker, Some(d)).Granted?
  {
    assert WorkerConsistent(run, worker);
    if Judge(run.agg, worker, Some(d)).Granted? {
      GrantedEntry(run, worker, d);
      hide Judge, Consistent, WorkerConsistent, SnapshotProblem, TotalOf;
    }
  }
}
