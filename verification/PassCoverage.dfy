/** What a passing result covers, and the one interleaving in which it does not. */
module PassCoverage {
  import opened Wire
  import opened CountMaps
  import opened Snapshots
  import opened Aggregation
  import opened AggregatorHistory
  import opened Coverage
  import opened Reporting
  import opened Completion

  // ----- After the deadline nothing changes for a finished worker ---------------------------

  /** From the i-th message up to the k-th the aggregator receives deliveries only. */
  ghost predicate Settled(messages: seq<Message>, i: nat, k: nat) {
    i <= k <= |messages| && forall n :: i <= n < k ==> messages[n].Delivery?
  }

  ghost predicate HasFinished(agg: Aggregate, w: string) {
    w in agg.latest && agg.latest[w].active && w !in MissingFinals(agg)
  }

  /** Every window ever recorded ends at the same deadline, and revisions count from one. */
  ghost predicate OneWindow(agg: Aggregate, deadline: Time) {
    (forall w :: CommonDeadline(agg, w, deadline)) && PositiveRevisions(agg)
  }

  lemma {:induction false} FreshPrefix(runId: string, messages: seq<Message>, n: nat)
    requires FreshRevisions(runId, messages) && n <= |messages|
    ensures FreshRevisions(runId, messages[..n])
    decreases |messages|
  {
    if n == |messages| {
      assert messages[..n] == messages;
    } else {
      FreshPrefix(runId, messages[..|messages| - 1], n);
      assert messages[..|messages| - 1][..n] == messages[..n];
    }
  }

  lemma FinishedAtDeadline(run: Run, w: string, deadline: Time)
    requires Consistent(run) && Certified(run, w) && HasFinished(run.agg, w) && OneWindow(run.agg, deadline)
    ensures w in run.agg.workers && run.agg.workers[w].lastInterval == deadline
  {
    hide Shape, Certified, TotalOf, History, FleetConserved, LatestRecorded;
    FinishIsLast(run, w, deadline);
    assert WorkerConsistent(run, w);
  }

  lemma SameWorkerFinished(a: Aggregate, b: Aggregate, w: string)
    requires HasFinished(a, w) && b.latest == a.latest
    requires w in a.workers && w in b.workers && b.workers[w] == a.workers[w]
    ensures HasFinished(b, w)
  {
  }

  lemma FinishedIsQuiet(run: Run, m: Message, w: string, deadline: Time)
    requires Consistent(run) && Certified(run, w) && m.Delivery?
    requires HasFinished(run.agg, w) && OneWindow(run.agg, deadline)
    ensures var next := Step(run, m);
      && next.agg.latest == run.agg.latest && next.agg.assignments == run.agg.assignments
      && HasFinished(next.agg, w) && History(next.log, w) == History(run.log, w)
  {
    hide Judge, Step, History, Certified, Consistent, Advanced, Add, Decoded, HasFinished, OneWindow;
    FinishedAtDeadline(run, w, deadline);
    if Judge(run.agg, m.worker, m.delta).Granted? {
      DeltaPresent(run.agg, m.worker, m.delta);
      StepGranted(run, m.worker, m.delta.value);
      if m.worker == w {
        DeadlineOfRevision(run.agg, m.delta.value.revision, w, deadline);
        NothingAfterDeadline(run, w, m.delta.value);
      }
      HistoryAppend(run.log, EntryOf(run, m.worker, m.delta.value), w);
      assert History(run.log, w) + [] == History(run.log, w);
    } else {
      NotGrantedKeeps(run, m);
    }
    SameWorkerFinished(run.agg, Step(run, m).agg, w);
  }

  lemma DeadlineOfRevision(agg: Aggregate, revision: nat, w: string, deadline: Time)
    requires OneWindow(agg, deadline) && revision in agg.assignments && w in agg.assignments[revision]
    ensures agg.assignments[revision][w].deadline == deadline
  {
    assert CommonDeadline(agg, w, deadline);
  }

  lemma NotGrantedKeeps(run: Run, m: Message)
    requires m.Delivery? && !Judge(run.agg, m.worker, m.delta).Granted?
    ensures var next := Step(run, m);
      && next.log == run.log && next.agg.workers == run.agg.workers
      && next.agg.latest == run.agg.latest && next.agg.assignments == run.agg.assignments
  {
    hide Judge;
  }

  lemma StillOneWindow(a: Aggregate, b: Aggregate, deadline: Time)
    requires OneWindow(a, deadline) && b.latest == a.latest && b.assignments == a.assignments
    ensures OneWindow(b, deadline)
  {
    forall w ensures CommonDeadline(b, w, deadline) {
      assert CommonDeadline(a, w, deadline);
    }
  }

  /** One more message of a run. */
  lemma NextMessage(plan: Plan, messages: seq<Message>, n: nat, w: string)
    requires FreshRevisions(plan.runId, messages) && n < |messages|
    ensures var before := RunAt(plan, messages, n);
      Consistent(before) && Certified(before, w) && RunAt(plan, messages, n + 1) == Step(before, messages[n])
  {
    hide Play, Step, Consistent, Certified, FreshRevisions;
    FreshPrefix(plan.runId, messages, n);
    EveryPlayIsConsistent(plan.runId, messages[..n]);
    EveryPlayIsCertified(plan.runId, messages[..n], w);
    AppendPlays(plan.runId, messages[..n], messages[n]);
    assert messages[..n + 1] == messages[..n] + [messages[n]];
  }

  lemma SettledOrder(messages: seq<Message>, i: nat, k: nat)
    requires Settled(messages, i, k)
    ensures i <= k <= |messages|
  {
  }

  lemma SettledPrefix(messages: seq<Message>, i: nat, k: nat)
    requires Settled(messages, i, k) && i < k
    ensures Settled(messages, i, k - 1) && k <= |messages| && messages[k - 1].Delivery?
  {
  }

  /** Once a worker has finished the latest revision, deliveries leave its history alone. */
  lemma {:induction false} FinishedStaysPut(plan: Plan, messages: seq<Message>, i: nat, k: nat, w: string, deadline: Time)
    requires FreshRevisions(plan.runId, messages) && Settled(messages, i, k)
    requires var agg := RunAt(plan, messages, i).agg; HasFinished(agg, w) && OneWindow(agg, deadline)
    ensures var before, after := RunAt(plan, messages, i), RunAt(plan, messages, k);
      && after.agg.latest == before.agg.latest && after.agg.assignments == before.agg.assignments
      && HasFinished(after.agg, w) && History(after.log, w) == History(before.log, w)
    decreases k
  {
    hide *;
    SettledOrder(messages, i, k);
    if i == k {
    } else {
      SettledPrefix(messages, i, k);
      var last := RunAt(plan, messages, k - 1);
      FinishedStaysPut(plan, messages, i, k - 1, w, deadline);
      NextMessage(plan, messages, k - 1, w);
      StillOneWindow(RunAt(plan, messages, i).agg, last.agg, deadline);
      FinishedIsQuiet(last, messages[k - 1], w, deadline);
    }
  }

  // ----- When the snapshot holds everything ----------------------------------------------------

  /** A worker's history has grown, or history and state are what they were. */
  ghost predicate SameOrLonger(before: Run, after: Run, w: string) {
    if |History(after.log, w)| > |History(before.log, w)| then true
    else History(after.log, w) == History(before.log, w) && StateOf(after.agg, w) == StateOf(before.agg, w)
  }

  /** A delivery adds to a worker's history or leaves its state alone. */
  lemma DeliveryAdds(run: Run, m: Message, w: string)
    requires m.Delivery?
    ensures var next := Step(run, m);
      && next.agg.latest == run.agg.latest && next.agg.assignments == run.agg.assignments
      && SameOrLonger(run, next, w)
  {
    hide Judge, Step, History, Advanced, Add, Decoded;
    if Judge(run.agg, m.worker, m.delta).Granted? {
      DeltaPresent(run.agg, m.worker, m.delta);
      StepGranted(run, m.worker, m.delta.value);
      HistoryAppend(run.log, EntryOf(run, m.worker, m.delta.value), w);
      assert History(run.log, w) + [] == History(run.log, w);
    } else {
      NotGrantedKeeps(run, m);
    }
  }

  lemma {:induction false} DeliveriesAdd(plan: Plan, messages: seq<Message>, i: nat, k: nat, w: string)
    requires FreshRevisions(plan.runId, messages) && Settled(messages, i, k)
    ensures var before, after := RunAt(plan, messages, i), RunAt(plan, messages, k);
      && after.agg.latest == before.agg.latest && after.agg.assignments == before.agg.assignments
      && SameOrLonger(before, after, w)
    decreases k
  {
    if i == k {
    } else {
      hide Step, Consistent, Certified, History, FreshRevisions, RunAt, StateOf;
      DeliveriesAdd(plan, messages, i, k - 1, w);
      NextMessage(plan, messages, k - 1, w);
      DeliveryAdds(RunAt(plan, messages, k - 1), messages[k - 1], w);
    }
  }

  /** Every worker active in the latest revision has the same accepted deltas at both moments. */
  ghost predicate SameActiveHistories(before: Run, after: Run) {
    forall w :: w in after.agg.latest && after.agg.latest[w].active ==> History(before.log, w) == History(after.log, w)
  }

  lemma FinishedByState(agg: Aggregate, w: string)
    requires PositiveRevisions(agg)
    ensures HasFinished(agg, w) <==>
      w in agg.latest && agg.latest[w].active && StateOf(agg, w).finalRevision == agg.latest[w].revision
  {
  }

  lemma CompleteMeansFinished(agg: Aggregate)
    ensures Complete(agg) <==> forall w :: w in agg.latest && agg.latest[w].active ==> HasFinished(agg, w)
  {
    hide FleetConserved;
    if !Complete(agg) {
      var w :| w in MissingFinals(agg);
      assert !HasFinished(agg, w);
    }
  }

  /** With every worker finished later and only deliveries in between, nothing of theirs
      arrived in between exactly if the run was already complete. */
  lemma CoverageExactly(plan: Plan, messages: seq<Message>, i: nat, k: nat, deadline: Time)
    requires FreshRevisions(plan.runId, messages) && Settled(messages, i, k)
    requires OneWindow(RunAt(plan, messages, i).agg, deadline) && Complete(RunAt(plan, messages, k).agg)
    ensures var before, after := RunAt(plan, messages, i), RunAt(plan, messages, k);
      SameActiveHistories(before, after) <==> Complete(before.agg)
  {
    var before, after := RunAt(plan, messages, i), RunAt(plan, messages, k);
    CompleteMeansFinished(before.agg);
    CompleteMeansFinished(after.agg);
    DeliveriesAdd(plan, messages, i, k, "");
    StillOneWindow(before.agg, after.agg, deadline);
    hide RunAt, History, FreshRevisions, Complete, StateOf, CommonDeadline, Settled, HasFinished;
    if Complete(before.agg) {
      forall w | w in after.agg.latest && after.agg.latest[w].active
        ensures History(before.log, w) == History(after.log, w)
      {
        FinishedStaysPut(plan, messages, i, k, w, deadline);
      }
    }
    if SameActiveHistories(before, after) {
      forall w | w in before.agg.latest && before.agg.latest[w].active ensures HasFinished(before.agg, w) {
        DeliveriesAdd(plan, messages, i, k, w);
        FinishedByState(before.agg, w);
        FinishedByState(after.agg, w);
      }
    }
  }

  /** A completion check that holds still holds after more deliveries. */
  lemma CompleteStays(plan: Plan, messages: seq<Message>, i: nat, k: nat, deadline: Time)
    requires FreshRevisions(plan.runId, messages) && Settled(messages, i, k)
    requires OneWindow(RunAt(plan, messages, i).agg, deadline) && Complete(RunAt(plan, messages, i).agg)
    ensures Complete(RunAt(plan, messages, k).agg) && OneWindow(RunAt(plan, messages, k).agg, deadline)
  {
    var before, after := RunAt(plan, messages, i), RunAt(plan, messages, k);
    CompleteMeansFinished(before.agg);
    CompleteMeansFinished(after.agg);
    DeliveriesAdd(plan, messages, i, k, "");
    StillOneWindow(before.agg, after.agg, deadline);
    hide RunAt, History, FreshRevisions, Complete, StateOf, CommonDeadline, Settled, HasFinished;
    forall w | w in after.agg.latest && after.agg.latest[w].active ensures HasFinished(after.agg, w) {
      FinishedStaysPut(plan, messages, i, k, w, deadline);
    }
  }

  /** A passing result whose snapshot was read after the last revision has everything that
      its active workers have had accepted at any later moment, for as long as only
      deliveries follow, exactly if the run was complete at that read. */
  lemma PassCoversExactly(plan: Plan, actions: seq<Action>, deadline: Time, later: nat)
    requires Completion.Possible(plan, actions)
    requires var s := Completion.After(plan, actions);
      && s.phase.Reported? && s.phase.summary.status == Pass
      && FreshRevisions(plan.runId, s.messages)
      && s.at.sampled <= s.at.closed <= later && Settled(s.messages, s.at.sampled, later)
      && OneWindow(RunAt(plan, s.messages, s.at.sampled).agg, deadline)
    ensures var s := Completion.After(plan, actions);
      var sampled, end := RunAt(plan, s.messages, s.at.sampled), RunAt(plan, s.messages, later);
      SameActiveHistories(sampled, end) <==> Complete(sampled.agg)
  {
    SummaryPassesExactly(plan, actions);
    var s := Completion.After(plan, actions);
    assert Settled(s.messages, s.at.sampled, s.at.closed) && Settled(s.messages, s.at.closed, later);
    hide *;
    WindowStays(plan, s.messages, s.at.sampled, s.at.closed, deadline);
    CompleteStays(plan, s.messages, s.at.closed, later, deadline);
    CoverageExactly(plan, s.messages, s.at.sampled, later, deadline);
  }

  lemma WindowStays(plan: Plan, messages: seq<Message>, i: nat, k: nat, deadline: Time)
    requires FreshRevisions(plan.runId, messages) && Settled(messages, i, k)
    requires OneWindow(RunAt(plan, messages, i).agg, deadline)
    ensures OneWindow(RunAt(plan, messages, k).agg, deadline)
  {
    DeliveriesAdd(plan, messages, i, k, "");
    StillOneWindow(RunAt(plan, messages, i).agg, RunAt(plan, messages, k).agg, deadline);
    hide *;
  }

  /** A result reported because the run was complete has everything that its active workers
      have had accepted at any later moment, however far the three reads are apart, for as
      long as only deliveries follow the completion check. */
  lemma CompleteExitCovers(plan: Plan, actions: seq<Action>, deadline: Time, later: nat)
    requires Completion.Possible(plan, actions)
    requires var s := Completion.After(plan, actions);
      && s.phase.Reported? && s.phase.exit == Exit.Finished
      && FreshRevisions(plan.runId, s.messages)
      && s.at.checked <= s.at.closed <= later && Settled(s.messages, s.at.checked, later)
      && OneWindow(RunAt(plan, s.messages, s.at.checked).agg, deadline)
    ensures var s := Completion.After(plan, actions);
      && s.at.sampled <= s.at.closed <= |s.messages|
      && var sampled, end := RunAt(plan, s.messages, s.at.sampled), RunAt(plan, s.messages, later);
        && s.phase.summary.metrics == sampled.agg.snapshot
        && Complete(sampled.agg) && Complete(RunAt(plan, s.messages, s.at.closed).agg)
        && Complete(end.agg) && SameActiveHistories(sampled, end)
  {
    EveryWaitIsSound(plan, actions);
    SummaryPassesExactly(plan, actions);
    var s := Completion.After(plan, actions);
    assert Complete(RunAt(plan, s.messages, s.at.checked).agg);
    assert s.at.checked <= s.at.sampled <= s.at.closed;
    hide Completion.Possible, Completion.After, RunAt, OneWindow, Complete, FreshRevisions, SameActiveHistories, Sound;
    CompleteStays(plan, s.messages, s.at.checked, s.at.sampled, deadline);
    CompleteStays(plan, s.messages, s.at.sampled, s.at.closed, deadline);
    CompleteStays(plan, s.messages, s.at.sampled, later, deadline);
    CoverageExactly(plan, s.messages, s.at.sampled, later, deadline);
  }
}
