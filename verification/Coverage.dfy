/** Gapless coverage: what a finished worker's accepted intervals add up to. */
module Coverage {
  import opened Wire
  import opened Snapshots
  import opened Aggregation
  import opened AggregatorHistory

  /** No revision is recorded twice. */
  ghost predicate FreshRevisions(runId: string, messages: seq<Message>) {
    messages == [] ||
    var init, last := messages[..|messages| - 1], messages[|messages| - 1];
    && FreshRevisions(runId, init)
    && (last.Revision? ==> last.revision !in Play(runId, init).agg.assignments)
  }

  /** Neighbouring intervals touch unless a revision in between left the worker idle. */
  ghost predicate Linked(assignments: map<nat, map<string, Window>>, worker: string, e: Entry, f: Entry) {
    End(e) == Start(f) || IdleBetween(assignments, worker, e.delta.revision, f.delta.revision)
  }

  /** The entry's window is the one recorded for its revision. */
  ghost predicate Recorded(assignments: map<nat, map<string, Window>>, worker: string, e: Entry) {
    var r := e.delta.revision;
    r in assignments && worker in assignments[r] && assignments[r][worker] == e.window
  }

  ghost predicate CertifiedHistory(assignments: map<nat, map<string, Window>>, worker: string, h: seq<Entry>) {
    && (forall i :: 0 <= i < |h| ==> Recorded(assignments, worker, h[i]))
    && (forall i :: 0 < i < |h| ==> Linked(assignments, worker, h[i - 1], h[i]))
  }

  /** Every entry was accepted against a window that is still recorded, and neighbours are linked. */
  ghost predicate Certified(run: Run, worker: string) {
    CertifiedHistory(run.agg.assignments, worker, History(run.log, worker))
  }

  lemma RecordKeepsCertified(run: Run, worker: string, revision: nat, assignments: map<string, LoadAssignment>)
    requires Certified(run, worker) && revision !in run.agg.assignments
    ensures Certified(Step(run, Revision(revision, assignments)), worker)
  {
    var next := Step(run, Revision(revision, assignments));
    var h := History(run.log, worker);
    forall i | 0 < i < |h|
      ensures Linked(next.agg.assignments, worker, h[i - 1], h[i])
    {
      if End(h[i - 1]) != Start(h[i]) {
        var p, c := h[i - 1].delta.revision, h[i].delta.revision;
        var r: nat :| p <= r <= c && r in run.agg.assignments && !ActiveIn(run.agg.assignments, worker, r);
        assert !ActiveIn(next.agg.assignments, worker, r);
      }
    }
  }

  /** An accepted delta continues its predecessor unless history excuses a gap. */
  lemma GrantedIsLinked(run: Run, worker: string, d: MetricsDelta)
    requires WorkerConsistent(run, worker) && Judge(run.agg, worker, Some(d)).Granted?
    ensures var h, e := History(run.log, worker), Entry(worker, d, run.agg.assignments[d.revision][worker]);
      h != [] ==> Linked(run.agg.assignments, worker, h[|h| - 1], e)
  {
    hide SnapshotProblem, Merged, Decoded, History, IdleBetween, WorkerConsistent, StateOf, Trim, IntervalProblem;
    var h := History(run.log, worker);
    if h != [] {
      var state, window := StateOf(run.agg, worker), run.agg.assignments[d.revision][worker];
      StateFollows(run, worker);
      IntervalTouches(d, window, state.lastInterval, RequiresContiguous(run.agg.assignments, worker, state.lastRevision, d.revision),
                      LatestRevision(run.agg, worker) > d.revision);
    }
  }

  /** Passing the interval checks where continuity is demanded. */
  lemma IntervalTouches(d: MetricsDelta, window: Window, last: Time, contiguous: bool, partialAllowed: bool)
    requires IntervalProblem(d, window, last, contiguous, partialAllowed) == None
    ensures last != 0 && contiguous ==> AsTime(d.intervalStart) == last
  {
  }

  lemma CommitKeepsCertified(run: Run, worker: string, d: MetricsDelta, w: string)
    requires WorkerConsistent(run, worker) && Certified(run, w)
    requires Judge(run.agg, worker, Some(d)).Granted?
    ensures Certified(Step(run, Delivery(worker, Some(d))), w)
  {
    StepGranted(run, worker, d);
    GrantedIsLinked(run, worker, d);
    hide *;
    CertifiedAppend(run, worker, d, EntryOf(run, worker, d), w);
  }

  lemma CertifiedAppend(run: Run, worker: string, d: MetricsDelta, e: Entry, w: string)
    requires e.worker == worker && Recorded(run.agg.assignments, worker, e)
    requires Certified(run, w)
    requires var h := History(run.log, worker); h != [] ==> Linked(run.agg.assignments, worker, h[|h| - 1], e)
    ensures Certified(Run(Committed(run.agg, worker, d), run.log + [e]), w)
  {
    hide Linked, History, Advanced, Add, Decoded, CertifiedHistory, Recorded;
    HistoryAppend(run.log, e, w);
    var h := History(run.log, w);
    if w != worker {
      assert h + [] == h;
    } else {
      LinkAppend(run.agg.assignments, worker, h, e);
    }
  }

  lemma LinkAppend(assignments: map<nat, map<string, Window>>, worker: string, h: seq<Entry>, e: Entry)
    requires CertifiedHistory(assignments, worker, h) && Recorded(assignments, worker, e)
    requires h != [] ==> Linked(assignments, worker, h[|h| - 1], e)
    ensures CertifiedHistory(assignments, worker, h + [e])
  {
    hide Linked, Recorded;
    var next := h + [e];
    forall i | 0 < i < |next| ensures Linked(assignments, worker, next[i - 1], next[i]) {
      assert i < |h| ==> next[i - 1] == h[i - 1] && next[i] == h[i];
    }
  }

  lemma StepKeepsCertified(run: Run, m: Message, worker: string)
    requires Consistent(run) && Certified(run, worker)
    requires m.Revision? ==> m.revision !in run.agg.assignments
    ensures Certified(Step(run, m), worker)
  {
    hide WorkerConsistent, FinishBacked, FleetConserved, Judge;
    match m {
      case Revision(revision, assignments) =>
        RecordKeepsCertified(run, worker, revision, assignments);
      case Delivery(w, delta) =>
        if Judge(run.agg, w, delta).Granted? {
          assert WorkerConsistent(run, w);
          DeltaPresent(run.agg, w, delta);
          CommitKeepsCertified(run, w, delta.value, worker);
        }
    }
  }

  lemma DeltaPresent(a: Aggregate, worker: string, delta: Option<MetricsDelta>)
    requires Judge(a, worker, delta).Granted?
    ensures delta.Some?
  {
  }

  lemma {:induction false} EveryPlayIsCertified(runId: string, messages: seq<Message>, worker: string)
    requires FreshRevisions(runId, messages)
    ensures Certified(Play(runId, messages), worker)
    decreases |messages|
  {
    hide Step;
    if messages == [] {
    } else {
      var init, n := messages[..|messages| - 1], |messages| - 1;
      EveryPlayIsCertified(runId, init, worker);
      EveryPlayIsConsistent(runId, init);
      hide Consistent, Certified;
      StepKeepsCertified(Play(runId, init), messages[n], worker);
    }
  }

  // ----- Tiling -----------------------------------------------------------------------

  /** The intervals follow one another without gap or overlap. */
  ghost predicate Tiles(h: seq<Entry>) {
    forall i :: 0 < i < |h| ==> Start(h[i]) == End(h[i - 1])
  }

  function Covered(h: seq<Entry>): int {
    if h == [] then 0 else Covered(h[..|h| - 1]) + (End(h[|h| - 1]) - Start(h[|h| - 1]))
  }

  lemma {:induction false} TilesCover(h: seq<Entry>)
    requires h != [] && Tiles(h)
    ensures Covered(h) == End(h[|h| - 1]) - Start(h[0])
    decreases |h|
  {
    if |h| <= 1 {
    } else {
      TilesCover(h[..|h| - 1]);
    }
  }

  /** Every window recorded for the worker shares this deadline. */
  ghost predicate CommonDeadline(agg: Aggregate, worker: string, deadline: Time) {
    forall r :: r in agg.assignments && worker in agg.assignments[r] ==> agg.assignments[r][worker].deadline == deadline
  }

  /** The worker had load in every revision recorded from its first accepted delta on. */
  ghost predicate AlwaysActive(run: Run, worker: string) {
    var h := History(run.log, worker);
    h != [] ==> forall r: nat :: r in run.agg.assignments && r >= h[0].delta.revision ==>
      ActiveIn(run.agg.assignments, worker, r)
  }

  /** A finished worker's last accepted interval ends at the common deadline. */
  lemma FinishIsLast(run: Run, worker: string, deadline: Time)
    requires Consistent(run) && Certified(run, worker) && CommonDeadline(run.agg, worker, deadline)
    requires worker in run.agg.workers && run.agg.workers[worker].finalRevision != 0
    ensures var h := History(run.log, worker);
      h != [] && End(h[|h| - 1]) == deadline && h[|h| - 1].delta.finalForRevision
      && h[|h| - 1].delta.revision == run.agg.workers[worker].finalRevision
  {
    assert WorkerConsistent(run, worker) && FinishBacked(run, worker);
    var h, revision := History(run.log, worker), run.agg.workers[worker].finalRevision;
    var e :| e in h && Finishes(e, revision);
    var i :| 0 <= i < |h| && h[i] == e;
    assert End(h[i]) == deadline;
    assert EntryValid(h[|h| - 1], |h| - 1);
    assert i < |h| - 1 ==> Precedes(h[i], h[|h| - 1]);
  }

  /** A worker that had load in every revision recorded since its first accepted delta,
      and has finished the latest one, has reported every instant from its first
      interval to the deadline exactly once. */
  lemma GaplessCoverage(runId: string, messages: seq<Message>, worker: string, deadline: Time)
    requires FreshRevisions(runId, messages)
    requires CommonDeadline(Play(runId, messages).agg, worker, deadline)
    requires var agg := Play(runId, messages).agg;
      && worker in agg.latest && worker in agg.workers
      && agg.workers[worker].finalRevision == agg.latest[worker].revision > 0
    requires AlwaysActive(Play(runId, messages), worker)
    ensures var h := History(Play(runId, messages).log, worker);
      && h != [] && Tiles(h) && End(h[|h| - 1]) == deadline
      && Covered(h) == deadline - Start(h[0])
  {
    hide Play, Consistent, Certified, CommonDeadline, AlwaysActive, History, FreshRevisions, Tiles;
    var run := Play(runId, messages);
    EveryPlayIsConsistent(runId, messages);
    EveryPlayIsCertified(runId, messages, worker);
    FinishIsLast(run, worker, deadline);
    ActiveTiles(run, worker);
    TilesCover(History(run.log, worker));
  }

  /** Without an idle revision in between, neighbouring intervals touch. */
  lemma ActiveTiles(run: Run, worker: string)
    requires Consistent(run) && Certified(run, worker) && AlwaysActive(run, worker)
    ensures Tiles(History(run.log, worker))
  {
    var h := History(run.log, worker);
    assert Shape(h) by { assert WorkerConsistent(run, worker); }
    hide Consistent, History, SnapshotProblem;
    forall i | 0 < i < |h| ensures Start(h[i]) == End(h[i - 1]) {
      assert Linked(run.agg.assignments, worker, h[i - 1], h[i]);
      assert i > 1 ==> Precedes(h[0], h[i - 1]);
    }
  }
}
