/** Waiting for the fleet's result: the completion loop and the reads of the final
    summary, interleaved with everything the aggregator receives meanwhile. */
module Completion {
  import opened Wire
  import opened Snapshots
  import opened SortedStrings
  import opened Aggregation
  import opened AggregatorHistory
  import opened Acceptance
  import Coordination
  import opened Coverage
  import opened Reporting

  /** What the result is evaluated against. */
  datatype Plan = Plan(
    runId: string, name: string, duration: Duration, thresholds: Thresholds, percentile: Percentile)

  datatype Exit = Finished | GraceExpired

  datatype Phase =
    | AwaitingStart
    | AwaitingDeadline
    | Checking
    | Blocked
    | ReadingSnapshot(exit: Exit)
    | ReadingViolations(exit: Exit, snapshot: Snapshot)
    | ReadingMissing(exit: Exit, snapshot: Snapshot, refused: seq<Violation>)
    | Reported(exit: Exit, summary: Summary)
    | CutShort(summary: Summary)

  /** How many messages the aggregator had received at the last completion check, at each
      read of the summary, and at a cancellation. */
  datatype Moments = Moments(checked: nat, sampled: nat, listed: nat, closed: nat, cancelled: nat)

  /** The waiting goroutine beside the aggregator, whose `changed` token it consumes, and the
      run window once it has been announced. */
  datatype Waiter = Waiter(messages: seq<Message>, run: Run, phase: Phase, at: Moments, window: Option<Coordination.RunWindow>)

  datatype Action =
    | Receive(m: Message)
    | Begin(window: Coordination.RunWindow)
    | ReachDeadline
    | Check
    | Wake
    | ExpireGrace
    | Cancel(now: Time)
    | ReadSnapshot
    | ReadViolations
    | ReadMissing(missing: seq<string>)

  function NewWaiter(plan: Plan): Waiter {
    Waiter([], Run(NewAggregate(plan.runId), []), AwaitingStart, Moments(0, 0, 0, 0, 0), None)
  }

  /** How much of the window has passed. */
  function ElapsedWithin(window: Coordination.RunWindow, now: Time): Duration {
    if now < window.startsAt then 0
    else if now > window.deadline then Sub(window.deadline, window.startsAt)
    else Sub(now, window.startsAt)
  }

  /** Nothing has passed of a window not announced yet. */
  function Elapsed(window: Option<Coordination.RunWindow>, now: Time): Duration {
    if window.None? then 0 else ElapsedWithin(window.value, now)
  }

  /** The list names exactly the workers without a final, in order. */
  ghost predicate ListsMissing(missing: seq<string>, agg: Aggregate) {
    Sorted(missing) && forall w :: multiset(missing)[w] == (if w in MissingFinals(agg) then 1 else 0)
  }

  ghost predicate Enabled(s: Waiter, a: Action) {
    match a
    case Receive(_) => true
    case Begin(_) => s.phase.AwaitingStart?
    case ReachDeadline => s.phase.AwaitingDeadline?
    case Check => s.phase.Checking?
    case Wake => s.phase.Blocked? && s.run.agg.changed
    case ExpireGrace => s.phase.Blocked?
    case Cancel(_) => s.phase.AwaitingStart? || s.phase.AwaitingDeadline? || s.phase.Blocked?
    case ReadSnapshot => s.phase.ReadingSnapshot?
    case ReadViolations => s.phase.ReadingViolations?
    case ReadMissing(missing) => s.phase.ReadingMissing? && ListsMissing(missing, s.run.agg)
  }

  ghost function Next(plan: Plan, s: Waiter, a: Action): Waiter
    requires Enabled(s, a)
  {
    var now := |s.messages|;
    match a
    case Receive(m) => s.(messages := s.messages + [m], run := Step(s.run, m))
    case Begin(window) => s.(phase := AwaitingDeadline, window := Some(window))
    case ReachDeadline => s.(phase := Checking)
    case Check =>
      if Complete(s.run.agg) then s.(phase := ReadingSnapshot(Finished), at := s.at.(checked := now))
      else s.(phase := Blocked)
    case Wake => s.(phase := Checking, run := s.run.(agg := s.run.agg.(changed := false)))
    case ExpireGrace => s.(phase := ReadingSnapshot(GraceExpired))
    case Cancel(time) =>
      s.(phase := CutShort(InterruptedSummary(plan.name, Elapsed(s.window, time), s.run.agg.snapshot, plan.percentile)),
         at := s.at.(cancelled := now))
    case ReadSnapshot =>
      s.(phase := ReadingViolations(s.phase.exit, s.run.agg.snapshot), at := s.at.(sampled := now))
    case ReadViolations =>
      s.(phase := ReadingMissing(s.phase.exit, s.phase.snapshot, s.run.agg.violations), at := s.at.(listed := now))
    case ReadMissing(missing) =>
      s.(phase := Reported(s.phase.exit, SummaryOf(plan, s.phase.snapshot, s.phase.refused, missing)),
         at := s.at.(closed := now))
  }

  function SummaryOf(plan: Plan, snapshot: Snapshot, refused: seq<Violation>, missing: seq<string>): Summary {
    Concluded(plan.name, plan.duration, snapshot, plan.thresholds, plan.percentile, refused, missing)
  }

  ghost predicate Possible(plan: Plan, actions: seq<Action>)
    decreases |actions|, 0
  {
    actions == [] ||
    var init := actions[..|actions| - 1];
    Possible(plan, init) && Enabled(After(plan, init), actions[|actions| - 1])
  }

  ghost function After(plan: Plan, actions: seq<Action>): Waiter
    requires Possible(plan, actions)
    decreases |actions|, 1
  {
    if actions == [] then NewWaiter(plan)
    else Next(plan, After(plan, actions[..|actions| - 1]), actions[|actions| - 1])
  }

  /** The actions are possible one after another and lead to this state of the loop. */
  ghost predicate Watches(plan: Plan, actions: seq<Action>, s: Waiter) {
    Possible(plan, actions) && After(plan, actions) == s
  }

  lemma NothingYet(plan: Plan)
    ensures Watches(plan, [], NewWaiter(plan))
  {
  }

  lemma Acts(plan: Plan, actions: seq<Action>, s: Waiter, a: Action)
    requires Watches(plan, actions, s) && Enabled(s, a)
    ensures Watches(plan, actions + [a], Next(plan, s, a))
  {
    hide Enabled, Next;
    assert (actions + [a])[..|actions|] == actions;
  }

  lemma WatchesMeans(plan: Plan, actions: seq<Action>, s: Waiter)
    requires Watches(plan, actions, s)
    ensures Possible(plan, actions) && After(plan, actions) == s
  {
  }

  // ----- The wakeup token stands aside ------------------------------------------------------

  /** The run without its wakeup token. */
  function Quiet(run: Run): Run {
    run.(agg := run.agg.(changed := false))
  }

  lemma QuietVerdict(a: Run, b: Run, worker: string, delta: Option<MetricsDelta>)
    requires Quiet(a) == Quiet(b)
    ensures Judge(a.agg, worker, delta) == Judge(b.agg, worker, delta)
  {
    hide RequiresContiguous, IntervalProblem, SnapshotProblem, Merged, Decoded;
  }

  /** The token never influences a step, and every step that changes anything sets it. */
  lemma StepsSignal(a: Run, b: Run, m: Message)
    requires Quiet(a) == Quiet(b)
    ensures Quiet(Step(a, m)) == Quiet(Step(b, m))
    ensures Step(a, m).agg.changed || Step(a, m) == a
  {
    if m.Delivery? {
      QuietVerdict(a, b, m.worker, m.delta);
    }
    hide Judge, Add, Decoded;
  }

  // ----- The invariant -----------------------------------------------------------------------

  /** The aggregator after the first n messages. */
  ghost function RunAt(plan: Plan, messages: seq<Message>, n: nat): Run
    requires n <= |messages|
  {
    Play(plan.runId, messages[..n])
  }

  /** What was read, and when, agrees with what had been received at that moment. */
  ghost predicate ReadsAgree(plan: Plan, s: Waiter) {
    var at := s.at;
    && (s.phase.ReadingSnapshot? || s.phase.ReadingViolations? || s.phase.ReadingMissing? || s.phase.Reported? ==>
          s.phase.exit.Finished? ==>
            at.checked <= |s.messages| && Complete(RunAt(plan, s.messages, at.checked).agg))
    && (s.phase.ReadingViolations? || s.phase.ReadingMissing? || s.phase.Reported? ==>
          (s.phase.exit.Finished? ==> at.checked <= at.sampled) && at.sampled <= |s.messages|)
    && (s.phase.ReadingViolations? ==> s.phase.snapshot == RunAt(plan, s.messages, at.sampled).agg.snapshot)
    && (s.phase.ReadingMissing? ==>
          && at.sampled <= at.listed <= |s.messages|
          && s.phase.snapshot == RunAt(plan, s.messages, at.sampled).agg.snapshot
          && s.phase.refused == RunAt(plan, s.messages, at.listed).agg.violations)
    && (s.phase.Reported? ==>
          && at.sampled <= at.listed <= at.closed <= |s.messages|
          && exists missing ::
            && ListsMissing(missing, RunAt(plan, s.messages, at.closed).agg)
            && s.phase.summary == SummaryOf(plan, RunAt(plan, s.messages, at.sampled).agg.snapshot,
                                            RunAt(plan, s.messages, at.listed).agg.violations, missing))
    && (s.phase.CutShort? ==>
          && at.cancelled <= |s.messages|
          && exists now :: s.phase.summary == InterruptedSummary(plan.name, Elapsed(s.window, now),
                                                 RunAt(plan, s.messages, at.cancelled).agg.snapshot, plan.percentile))
  }

  ghost predicate Sound(plan: Plan, s: Waiter) {
    && Quiet(s.run) == Quiet(Play(plan.runId, s.messages))
    && (s.phase.Blocked? && Complete(s.run.agg) ==> s.run.agg.changed)
    && ReadsAgree(plan, s)
  }

  lemma MomentsStay(plan: Plan, s: Waiter, m: Message)
    requires ReadsAgree(plan, s)
    ensures ReadsAgree(plan, s.(messages := s.messages + [m], run := Step(s.run, m)))
  {
    hide Play, Step, ListsMissing, Complete, SummaryOf, InterruptedSummary, Elapsed;
    var messages := s.messages + [m];
    forall n: nat | n <= |s.messages| ensures RunAt(plan, messages, n) == RunAt(plan, s.messages, n) {
      assert messages[..n] == s.messages[..n];
    }
    hide RunAt;
  }

  lemma ReadKeeps(plan: Plan, s: Waiter, a: Action)
    requires Sound(plan, s) && Enabled(s, a)
    requires a.ReadSnapshot? || a.ReadViolations? || a.ReadMissing? || a.Check?
    ensures ReadsAgree(plan, Next(plan, s, a))
  {
    hide Play, Step, SummaryOf;
    assert s.messages[..|s.messages|] == s.messages;
    MissingIgnoresToken(s.run.agg, Play(plan.runId, s.messages).agg);
    if a.ReadMissing? {
      assert ListsMissing(a.missing, RunAt(plan, s.messages, |s.messages|).agg);
    }
  }

  lemma MissingIgnoresToken(a: Aggregate, b: Aggregate)
    requires a.latest == b.latest && a.workers == b.workers
    ensures MissingFinals(a) == MissingFinals(b)
  {
  }

  lemma ActionKeepsSound(plan: Plan, s: Waiter, a: Action)
    requires Sound(plan, s) && Enabled(s, a)
    ensures Sound(plan, Next(plan, s, a))
  {
    hide Play, Step, ListsMissing, SummaryOf, ReadsAgree, MissingFinals;
    match a {
      case Receive(m) =>
        StepsSignal(s.run, Play(plan.runId, s.messages), m);
        AppendPlays(plan.runId, s.messages, m);
        MomentsStay(plan, s, m);
      case Wake =>
        WakeKeepsReads(plan, s);
      case Begin(window) => PhaseKeepsReads(plan, s, AwaitingDeadline);
      case ReachDeadline => PhaseKeepsReads(plan, s, Checking);
      case ExpireGrace => PhaseKeepsReads(plan, s, ReadingSnapshot(GraceExpired));
      case Cancel(time) => CancelKeepsReads(plan, s, time);
      case _ =>
        ReadKeeps(plan, s, a);
    }
  }

  lemma AppendPlays(runId: string, messages: seq<Message>, m: Message)
    ensures Play(runId, messages + [m]) == Step(Play(runId, messages), m)
  {
    assert (messages + [m])[..|messages|] == messages;
  }

  lemma WakeKeepsReads(plan: Plan, s: Waiter)
    requires ReadsAgree(plan, s)
    ensures ReadsAgree(plan, s.(phase := Checking, run := s.run.(agg := s.run.agg.(changed := false))))
  {
  }

  lemma PhaseKeepsReads(plan: Plan, s: Waiter, phase: Phase)
    requires phase.AwaitingDeadline? || phase.Checking? || phase == ReadingSnapshot(GraceExpired)
    ensures forall window :: ReadsAgree(plan, s.(phase := phase, window := window))
  {
  }

  lemma CancelKeepsReads(plan: Plan, s: Waiter, now: Time)
    requires Sound(plan, s) && Enabled(s, Cancel(now))
    ensures ReadsAgree(plan, Next(plan, s, Cancel(now)))
  {
    hide Play, Step, SummaryOf, InterruptedSummary, Elapsed;
    assert s.messages[..|s.messages|] == s.messages;
  }

  lemma {:induction false} EveryWaitIsSound(plan: Plan, actions: seq<Action>)
    requires Possible(plan, actions)
    ensures Sound(plan, After(plan, actions))
    decreases |actions|
  {
    hide Sound, Enabled, Next;
    if actions == [] {
      NewWaiterSound(plan);
    } else {
      EveryWaitIsSound(plan, actions[..|actions| - 1]);
      ActionKeepsSound(plan, After(plan, actions[..|actions| - 1]), actions[|actions| - 1]);
    }
  }

  lemma NewWaiterSound(plan: Plan)
    ensures Sound(plan, NewWaiter(plan))
  {
  }

  // ----- No lost wakeups ------------------------------------------------------------------------

  /** Whenever the loop is blocked although the run is complete, a token is waiting for
      it, and taking it leads straight to the summary. */
  lemma CompletionIsNoticed(plan: Plan, actions: seq<Action>)
    requires Possible(plan, actions)
    requires After(plan, actions).phase.Blocked? && Complete(After(plan, actions).run.agg)
    ensures var s := After(plan, actions);
      && Enabled(s, Wake)
      && Enabled(Next(plan, s, Wake), Check)
      && Next(plan, Next(plan, s, Wake), Check).phase == ReadingSnapshot(Finished)
  {
    EveryWaitIsSound(plan, actions);
    var s := After(plan, actions);
    MissingIgnoresToken(s.run.agg, s.run.agg.(changed := false));
  }

  // ----- What PASS means ------------------------------------------------------------------------

  /** The aggregator refuses the message when it arrives. */
  ghost predicate RefusedAt(runId: string, messages: seq<Message>, n: nat)
    requires n < |messages|
  {
    var m := messages[n];
    m.Delivery? && Judge(Play(runId, messages[..n]).agg, m.worker, m.delta).Refused?
  }

  lemma ViolationAdded(run: Run, m: Message)
    ensures Step(run, m).agg.violations == [] <==>
      run.agg.violations == [] && !(m.Delivery? && Judge(run.agg, m.worker, m.delta).Refused?)
  {
    hide Judge, Add, Decoded;
  }

  /** Violations are exactly the deliveries refused so far. */
  lemma {:induction false} ViolationsAreRefusals(runId: string, messages: seq<Message>)
    ensures Play(runId, messages).agg.violations == [] <==> forall n :: 0 <= n < |messages| ==> !RefusedAt(runId, messages, n)
    decreases |messages|
  {
    hide Judge, Add, Decoded;
    if messages == [] {
    } else {
      var k := |messages| - 1;
      var init := messages[..k];
      ViolationsAreRefusals(runId, init);
      forall n: nat | n < k ensures RefusedAt(runId, init, n) == RefusedAt(runId, messages, n) {
        assert init[..n] == messages[..n];
      }
      ViolationAdded(Play(runId, init), messages[k]);
      hide Play, Step;
      assert RefusedAt(runId, messages, k) <==>
        messages[k].Delivery? && Judge(Play(runId, init).agg, messages[k].worker, messages[k].delta).Refused?;
    }
  }

  ghost predicate PositiveRevisions(agg: Aggregate) {
    forall w :: w in agg.latest ==> agg.latest[w].revision > 0
  }

  lemma NothingListed(missing: seq<string>, agg: Aggregate)
    requires ListsMissing(missing, agg)
    ensures missing == [] <==> Complete(agg)
  {
    if missing == [] {
      assert forall w :: multiset(missing)[w] == 0;
    } else {
      assert missing[0] in multiset(missing);
    }
  }

  /** A reported summary passes exactly when the measurements are acceptable, nothing had
      been refused when the violations were read, and every worker had finished when the
      missing ones were read. Its figures are the snapshot's and its list leaves nothing out. */
  lemma SummaryPassesExactly(plan: Plan, actions: seq<Action>)
    requires Possible(plan, actions) && After(plan, actions).phase.Reported?
    ensures var s := After(plan, actions);
      var summary := s.phase.summary;
      && s.at.sampled <= s.at.listed <= s.at.closed <= |s.messages|
      && Measures(summary, plan.name, plan.duration, RunAt(plan, s.messages, s.at.sampled).agg.snapshot, plan.percentile)
      && (exists missing ::
            && ListsMissing(missing, RunAt(plan, s.messages, s.at.closed).agg)
            && TellsAll(summary, plan.thresholds, RunAt(plan, s.messages, s.at.listed).agg.violations, missing))
      && (summary.status == Pass <==>
            && Acceptable(summary.metrics, plan.thresholds, plan.percentile)
            && RunAt(plan, s.messages, s.at.listed).agg.violations == []
            && Complete(RunAt(plan, s.messages, s.at.closed).agg))
  {
    EveryWaitIsSound(plan, actions);
    var s := After(plan, actions);
    hide Possible, After, Quiet, Acceptable, MissingFinals, Concluded, TellsAll, ListsMissing;
    var missing :| ListsMissing(missing, RunAt(plan, s.messages, s.at.closed).agg)
      && s.phase.summary == SummaryOf(plan, RunAt(plan, s.messages, s.at.sampled).agg.snapshot,
                                      RunAt(plan, s.messages, s.at.listed).agg.violations, missing);
    NothingListed(missing, RunAt(plan, s.messages, s.at.closed).agg);
    ConclusionTellsAll(plan.name, plan.duration, RunAt(plan, s.messages, s.at.sampled).agg.snapshot,
                       plan.thresholds, plan.percentile, RunAt(plan, s.messages, s.at.listed).agg.violations, missing);
    ConclusionPasses(plan.name, plan.duration, RunAt(plan, s.messages, s.at.sampled).agg.snapshot,
                     plan.thresholds, plan.percentile, RunAt(plan, s.messages, s.at.listed).agg.violations, missing);
  }

  /** Nothing before the window was announced or begins, all of it once it is over, and the
      time since its start in between. */
  ghost predicate PassedBy(window: Option<Coordination.RunWindow>, now: Time, passed: Duration) {
    && (window.None? ==> passed == 0)
    && (window.Some? ==>
          var startsAt, deadline := window.value.startsAt, window.value.deadline;
          startsAt <= deadline && deadline - startsAt <= MAX_I64 ==> passed == Max(0, Min(now, deadline) - startsAt))
  }

  /** What the answer to a cancelled wait was made from. */
  lemma {:induction false} CancelIsTimed(plan: Plan, actions: seq<Action>)
    requires Possible(plan, actions) && After(plan, actions).phase.CutShort?
    ensures var s := After(plan, actions);
      exists a :: a in actions && a.Cancel? && PassedBy(s.window, a.now, s.phase.summary.duration)
    decreases |actions|
  {
    hide Step, SummaryOf, MissingFinals, ListsMissing, PassedBy, Measures;
    if actions == [] {
    } else {
      var init, last := actions[..|actions| - 1], actions[|actions| - 1];
      assert actions == init + [last];
      assert last in actions && forall a :: a in init ==> a in actions;
      var before := After(plan, init);
      if last.Cancel? {
        ElapsedPasses(before.window, last.now);
        BuiltMeasures(plan.name, Elapsed(before.window, last.now), before.run.agg.snapshot, plan.percentile);
        hide Elapsed;
      } else {
        CancelIsTimed(plan, init);
      }
    }
  }

  lemma ElapsedPasses(window: Option<Coordination.RunWindow>, now: Time)
    ensures PassedBy(window, now, Elapsed(window, now))
  {
  }

  /** A cancelled wait answers INTERRUPTED, whatever has been measured: the figures are those
      of the sum of what was accepted at the moment of the cancel, over as much of the window
      as had passed, with no verdict on them. */
  lemma InterruptedIsPartial(plan: Plan, actions: seq<Action>)
    requires Possible(plan, actions) && After(plan, actions).phase.CutShort?
    ensures var s := After(plan, actions);
      var summary := s.phase.summary;
      && summary.status == Status.Interrupted && summary.violations == []
      && s.at.cancelled <= |s.messages|
      && Measures(summary, plan.name, summary.duration, TotalOf(RunAt(plan, s.messages, s.at.cancelled).log), plan.percentile)
      && exists a :: a in actions && a.Cancel? && PassedBy(s.window, a.now, summary.duration)
  {
    EveryWaitIsSound(plan, actions);
    CancelIsTimed(plan, actions);
    var s := After(plan, actions);
    assert ReadsAgree(plan, s);
    EveryPlayIsConsistent(plan.runId, s.messages[..s.at.cancelled]);
    var run := RunAt(plan, s.messages, s.at.cancelled);
    assert run.agg.snapshot == TotalOf(run.log) by { FleetIsTotal(run); }
    hide Measures, Possible, After, Play, TotalOf, PassedBy, RunAt, Elapsed, InterruptedSummary;
    var now :| s.phase.summary == InterruptedSummary(plan.name, Elapsed(s.window, now), run.agg.snapshot, plan.percentile);
    InterruptedIsUnjudged(plan.name, Elapsed(s.window, now), run.agg.snapshot, plan.percentile);
  }

  /** The wait is over, with this answer. */
  predicate Answered(s: Waiter) {
    s.phase.Reported? || s.phase.CutShort?
  }

  /** An action of this kind has been taken. */
  ghost predicate Reached(actions: seq<Action>) {
    (exists a :: a in actions && a.Begin?) && ReachDeadline in actions
  }

  /** The loop asks nothing of the aggregator before the window was announced and its deadline
      reached, and goes on without completion only when the grace period has ended. */
  ghost predicate PhaseReached(actions: seq<Action>, phase: Phase) {
    && (phase.AwaitingDeadline? ==> exists a :: a in actions && a.Begin?)
    && (!phase.AwaitingStart? && !phase.AwaitingDeadline? && !phase.CutShort? ==> Reached(actions))
    && (phase.ReadingSnapshot? || phase.ReadingViolations? || phase.ReadingMissing? || phase.Reported? ==>
          phase.exit.GraceExpired? ==> ExpireGrace in actions)
  }

  lemma {:induction false} ResultsAreEarned(plan: Plan, actions: seq<Action>)
    requires Possible(plan, actions)
    ensures PhaseReached(actions, After(plan, actions).phase)
    ensures var window := After(plan, actions).window;
      if window.Some? then Begin(window.value) in actions else forall a :: a in actions ==> !a.Begin?
    decreases |actions|
  {
    hide Step, SummaryOf, InterruptedSummary, MissingFinals, ListsMissing;
    if actions == [] {
    } else {
      var init, last := actions[..|actions| - 1], actions[|actions| - 1];
      ResultsAreEarned(plan, init);
      assert actions == init + [last];
      assert last in actions && forall a :: a in init ==> a in actions;
    }
  }

  /** PASS is sound, over every way the wait can end: it was reported, after the deadline, no
      delta was refused up to the read of the violations, every delta delivered by then was
      accepted or repeats its worker's last accepted one, every worker active in the latest
      revision has had its deadline final accepted, and the reported snapshot is the exact sum
      of everything accepted when it was read, with requests, without drops and without unmet
      demand. */
  lemma PassIsSound(plan: Plan, actions: seq<Action>)
    requires Possible(plan, actions)
    requires var s := After(plan, actions); Answered(s) && s.phase.summary.status == Pass
    requires var s := After(plan, actions);
      s.at.closed <= |s.messages| ==> PositiveRevisions(RunAt(plan, s.messages, s.at.closed).agg)
    ensures var s := After(plan, actions);
      var summary, at := s.phase.summary, s.at;
      && s.phase.Reported? && Reached(actions)
      && at.sampled <= at.listed <= at.closed <= |s.messages|
      && summary.metrics == TotalOf(RunAt(plan, s.messages, at.sampled).log)
      && summary.metrics.counters.requests > 0
      && summary.metrics.counters.droppedSamples == summary.metrics.counters.unmetDemand == 0
      && (forall n :: 0 <= n < at.listed ==> !RefusedAt(plan.runId, s.messages[..at.listed], n))
      && (forall n: nat :: n < at.listed ==> Kept(plan.runId, s.messages[..at.listed], n))
      && var final := RunAt(plan, s.messages, at.closed);
        forall w :: w in final.agg.latest && final.agg.latest[w].active ==>
          exists e :: e in History(final.log, w) && Finishes(e, final.agg.latest[w].revision)
  {
    if After(plan, actions).phase.CutShort? {
      InterruptedIsPartial(plan, actions);
    }
    SummaryPassesExactly(plan, actions);
    ResultsAreEarned(plan, actions);
    var s := After(plan, actions);
    hide Possible, After, Play, Finishes, History, TotalOf, WorkerConsistent, Kept, Reached;
    NothingIsLost(plan.runId, s.messages[..s.at.listed]);
    EveryPlayIsConsistent(plan.runId, s.messages[..s.at.sampled]);
    ViolationsAreRefusals(plan.runId, s.messages[..s.at.listed]);
    EveryPlayIsConsistent(plan.runId, s.messages[..s.at.closed]);
    CompleteIsBacked(RunAt(plan, s.messages, s.at.closed));
  }

  lemma CompleteIsBacked(run: Run)
    requires Consistent(run) && Complete(run.agg) && PositiveRevisions(run.agg)
    ensures forall w :: w in run.agg.latest && run.agg.latest[w].active ==>
      exists e :: e in History(run.log, w) && Finishes(e, run.agg.latest[w].revision)
  {
    hide FleetConserved, WorkerConsistent, LatestRecorded, Finishes, History;
    forall w | w in run.agg.latest && run.agg.latest[w].active
      ensures exists e :: e in History(run.log, w) && Finishes(e, run.agg.latest[w].revision)
    {
      assert w !in MissingFinals(run.agg);
      assert FinishBacked(run, w);
    }
  }
}
