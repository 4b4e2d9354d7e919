/** Schedulers under the controller's event loop: starting, stopping, and the channel
    that reports a scheduler's end, with the collector between them. */
module Schedulers {
  import opened Wire
  import opened Snapshots
  import opened Recording
  import opened Collecting

  /** A scheduler's life: it runs, it has put its result in its done channel, and the
      result has been taken from there. */
  datatype Stage = Running | Ended(failed: bool) | Joined

  /** Why the controller stops a scheduler, or takes a snapshot. */
  datatype Cause = Replacing | AtDeadline | AtBoundary | Leaving

  datatype Phase =
    | Selecting
    | Waiting(cause: Cause, on: nat)
    | Halted(cause: Cause)
    | Flushing(cause: Cause)
    | Installing
    | Closing
    | Finished

  /** A closing flush: the schedulers started before it, the samples accepted by then,
      and the reports made up to and including its own. */
  datatype Flush = Flush(schedulers: nat, accepted: nat, reports: nat)

  /** `done` is the scheduler the controller still holds a cancel function and a done
      channel for; `owners` says which scheduler each accepted sample came from. */
  datatype Loop = Loop(
    stages: seq<Stage>,
    done: Option<nat>,
    phase: Phase,
    collector: State,
    owners: seq<nat>,
    flushes: seq<Flush>)

  datatype Turn =
    | Check(scheduler: nat)
    | Produce(scheduler: nat, sample: Sample)
    | Count(scheduler: nat)
    | Return(scheduler: nat, failed: bool)
    | Collect(step: Step)
    | Queue
    | Stop(cause: Cause)
    | Join
    | Report
    | Drained(flush: bool, overdue: bool)
    | FlushEnds(ok: bool)
    | Install(start: bool)
    | TakeDone
    | CloseEnds

  function NewLoop(capacity: nat): Loop {
    Loop([], None, Selecting, Initial(capacity), [], [])
  }

  /** The controller takes a turn only where its loop stands; schedulers and the
      collector's consumer run beside it at any time. A scheduler returns only when its
      requests are done, so with no offer in progress. */
  predicate Enabled(l: Loop, t: Turn) {
    match t
    case Check(k) => k < |l.stages| && l.stages[k].Running?
    case Produce(k, _) => k < |l.stages| && l.stages[k].Running? && l.collector.offering > 0
    case Count(k) => k < |l.stages| && l.stages[k].Running? && l.collector.failing > 0
    case Return(k, _) => k < |l.stages| && l.stages[k].Running? && ProducersDone(l.collector)
    case Collect(step) => step.Dequeue? || step.Answer?
    case Queue => l.phase.Flushing? || l.phase.Closing?
    case Stop(cause) => l.phase.Selecting? && !cause.AtBoundary?
    case Join => l.phase.Waiting? && l.phase.on < |l.stages| && l.stages[l.phase.on].Ended?
    case Report => l.phase.Selecting?
    case Drained(_, _) => l.phase.Halted?
    case FlushEnds(_) => l.phase.Flushing? && l.collector.phase.Free?
    case Install(_) => l.phase.Installing?
    case TakeDone => l.phase.Selecting? && l.done.Some? && l.done.value < |l.stages| && l.stages[l.done.value].Ended?
    case CloseEnds => l.phase.Closing? && l.collector.phase.Stopped?
  }

  function QueueStep(l: Loop): Step {
    if l.phase.Closing? then QueueClose else QueueSnapshot
  }

  /** Cancels the scheduler and waits for its result, unless there is none to wait for. */
  function Stopping(l: Loop, cause: Cause): Loop {
    if l.done.Some? then l.(phase := Waiting(cause, l.done.value)) else l.(phase := Halted(cause))
  }

  function Flushed(l: Loop, cause: Cause): Loop {
    l.(phase := Flushing(cause), collector := Next(l.collector, BeginSnapshot))
  }

  /** Records a flush that closed a revision. */
  function Noted(l: Loop, cause: Cause): Loop {
    if cause.AtBoundary? then l
    else l.(flushes := l.flushes + [Flush(|l.stages|, |l.collector.accepted|, |l.collector.reports|)])
  }

  function Turned(l: Loop, t: Turn): Loop
    requires Enabled(l, t)
  {
    match t
    case Check(k) => l.(collector := Next(l.collector, CheckOpen))
    case Count(k) => l.(collector := Next(l.collector, CountDrop))
    case Produce(k, sample) =>
      var collector := Next(l.collector, Send(sample));
      l.(collector := collector,
         owners := if |collector.accepted| > |l.collector.accepted| then l.owners + [k] else l.owners)
    case Return(k, failed) => l.(stages := l.stages[k := Ended(failed)])
    case Collect(step) => l.(collector := Next(l.collector, step))
    case Queue => l.(collector := Next(l.collector, QueueStep(l)))
    case Stop(cause) => Stopping(l, cause)
    case Join => l.(stages := l.stages[l.phase.on := Joined], done := None, phase := Halted(l.phase.cause))
    case Report => Flushed(l, AtBoundary)
    case Drained(flush, overdue) => AfterDrain(l, l.phase.cause, flush, overdue)
    case FlushEnds(ok) =>
      var recorded := Noted(l, l.phase.cause);
      if !ok then Stopping(recorded, Leaving)
      else recorded.(phase := if l.phase.cause.Replacing? then Installing else Selecting)
    case Install(start) =>
      if start then l.(stages := l.stages + [Running], done := Some(|l.stages|), phase := Selecting)
      else l.(phase := Selecting)
    case TakeDone =>
      var joined := l.(stages := l.stages[l.done.value := Joined], done := None);
      if l.stages[l.done.value].failed then Stopping(joined, Leaving) else joined
    case CloseEnds => l.(phase := Finished)
  }

  /** With the old scheduler out of the way: close its revision, go on, or leave. */
  function AfterDrain(l: Loop, cause: Cause, flush: bool, overdue: bool): Loop {
    match cause
    case Leaving => l.(phase := Closing, collector := Next(l.collector, BeginClose))
    case _ =>
      if overdue then Stopping(l, Leaving)
      else if flush then Flushed(l, cause)
      else l.(phase := if cause.Replacing? then Installing else Selecting)
  }

  ghost predicate Possible(capacity: nat, turns: seq<Turn>)
    decreases |turns|, 0
  {
    turns == [] ||
    var init := turns[..|turns| - 1];
    Possible(capacity, init) && Enabled(After(capacity, init), turns[|turns| - 1])
  }

  ghost function After(capacity: nat, turns: seq<Turn>): Loop
    requires Possible(capacity, turns)
    decreases |turns|, 1
  {
    if turns == [] then NewLoop(capacity)
    else Turned(After(capacity, turns[..|turns| - 1]), turns[|turns| - 1])
  }

  // ----- The invariant --------------------------------------------------------------------

  /** Exactly the scheduler the controller holds has not been joined, and it is the newest. */
  ghost predicate OneScheduler(l: Loop) {
    && (forall k: nat :: k < |l.stages| ==> (l.stages[k] != Joined <==> l.done == Some(k)))
    && (l.done.Some? ==> l.done.value == |l.stages| - 1)
  }

  /** The old scheduler is gone while its revision is being closed. */
  predicate Quiescent(p: Phase) {
    p.Halted? || p.Installing? || p.Closing? || p.Finished? || (p.Flushing? && p.cause != AtBoundary)
  }

  ghost predicate LoopAgrees(l: Loop) {
    && (l.phase.Waiting? ==> l.done == Some(l.phase.on))
    && (Quiescent(l.phase) ==> l.done == None)
    && (l.phase.Waiting? || l.phase.Halted? ==> l.phase.cause != AtBoundary)
    && (l.phase.Flushing? ==> l.phase.cause != Leaving)
  }

  /** The controller is the collector's only caller and uses it one command at a time. */
  ghost predicate CollectorAgrees(l: Loop) {
    match l.phase
    case Flushing(_) => l.collector.phase in {SnapshotBlocked, SnapshotQueued, Free}
    case Closing => l.collector.phase in {CloseBlocked, CloseQueued, Collecting.Stopped}
    case Finished => l.collector.phase == Collecting.Stopped
    case _ => l.collector.phase == Free
  }

  /** While a revision is being closed nothing is queued behind its snapshot command, and
      once that is answered nothing is left. */
  ghost predicate ClosingDrains(l: Loop) {
    l.phase.Flushing? && l.phase.cause != AtBoundary ==>
      && (l.collector.phase == SnapshotQueued ==>
            if l.collector.held.Some? then l.collector.events == []
            else l.collector.events != [] && !l.collector.events[|l.collector.events| - 1].Data?)
      && (l.collector.phase == Free ==> l.collector.events == [] && l.collector.pending == [])
  }

  /** A closing flush reported everything accepted by then, which is exactly what the
      schedulers before it ever get accepted. */
  ghost predicate FlushSeparates(f: Flush, l: Loop) {
    && f.schedulers <= |l.stages|
    && f.accepted <= |l.owners|
    && f.reports <= |l.collector.reports|
    && |Reported(l.collector.reports[..f.reports])| == f.accepted
    && (l.done.Some? ==> f.schedulers <= l.done.value)
    && forall i :: 0 <= i < |l.owners| ==> (l.owners[i] < f.schedulers <==> i < f.accepted)
  }

  ghost predicate OwnersKnown(l: Loop) {
    && |l.owners| == |l.collector.accepted|
    && forall i :: 0 <= i < |l.owners| ==> l.owners[i] < |l.stages|
  }

  /** Only the live scheduler can have an offer in progress, so nothing is late. */
  ghost predicate OffersBelong(l: Loop) {
    && (!ProducersDone(l.collector) ==>
          l.done.Some? && l.done.value < |l.stages| && l.stages[l.done.value].Running?)
    && (l.collector.closed ==> Draining(l.collector))
  }

  ghost predicate Sound(l: Loop) {
    && Invariant(l.collector) && OffersBelong(l)
    && OneScheduler(l) && LoopAgrees(l) && CollectorAgrees(l) && ClosingDrains(l) && OwnersKnown(l)
    && forall i :: 0 <= i < |l.flushes| ==> FlushSeparates(l.flushes[i], l)
  }

  // ----- Every turn keeps it ----------------------------------------------------------------

  /** What the steps that accept nothing leave alone. */
  lemma CollectorFrame(c: State, step: Step)
    requires OneCommand(c) && !step.Send?
    ensures var d := Next(c, step);
      && d.accepted == c.accepted
      && |d.reports| >= |c.reports| && d.reports[..|c.reports|] == c.reports
      && (c.closed && Draining(c) ==> d.closed && Draining(d))
      && (step in {CheckOpen, CountDrop} ==> d.phase == c.phase && d.events == c.events && d.pending == c.pending
                                             && d.held == c.held && d.closed == c.closed)
      && (!Producing(step) ==> d.offering == c.offering && d.failing == c.failing)
      && (!step.BeginClose? ==> d.closed == c.closed)
  {
    hide Record;
  }

  lemma ReportsStay(f: Flush, l: Loop, m: Loop)
    requires FlushSeparates(f, l)
    requires m.stages == l.stages && m.owners == l.owners && (m.done == l.done || m.done == None)
    requires |m.collector.reports| >= |l.collector.reports|
    requires m.collector.reports[..|l.collector.reports|] == l.collector.reports
    ensures FlushSeparates(f, m)
  {
    hide Collecting.Reported;
    assert m.collector.reports[..f.reports] == l.collector.reports[..f.reports];
  }

  /** A collector step that accepts nothing, with the loop's own part kept. */
  lemma CollectorStepKeeps(l: Loop, m: Loop, step: Step)
    requires Sound(l) && !step.Send?
    requires m == l.(phase := m.phase, collector := Next(l.collector, step))
    requires LoopAgrees(m) && CollectorAgrees(m) && ClosingDrains(m) && OffersBelong(m)
    ensures Sound(m)
  {
    hide FlushSeparates, OffersBelong, ClosingDrains;
    StepKeepsInvariant(l.collector, step);
    CollectorFrame(l.collector, step);
    hide Invariant, Next;
    forall i | 0 <= i < |m.flushes| ensures FlushSeparates(m.flushes[i], m) {
      ReportsStay(m.flushes[i], l, m);
    }
  }

  lemma ProduceKeeps(l: Loop, k: nat, sample: Sample)
    requires Sound(l) && Enabled(l, Produce(k, sample))
    ensures Sound(Turned(l, Produce(k, sample)))
  {
    hide Invariant, Collecting.Reported;
    SendKeepsInvariant(l.collector, sample);
    assert l.done == Some(k);
  }

  /** The live scheduler checks, or counts a drop. */
  lemma CheckKeeps(l: Loop, t: Turn)
    requires Sound(l) && Enabled(l, t) && (t.Check? || t.Count?)
    ensures Sound(Turned(l, t))
  {
    hide Invariant, FlushSeparates;
    var step, m := if t.Check? then CheckOpen else CountDrop, Turned(l, t);
    assert l.done == Some(t.scheduler);
    InvariantParts(l.collector);
    CollectorFrame(l.collector, step);
    CollectorStepKeeps(l, m, step);
  }

  lemma CollectAgrees(l: Loop, step: Step)
    requires Sound(l) && step in {Dequeue, Answer}
    ensures var m := l.(collector := Next(l.collector, step));
      CollectorAgrees(m) && ClosingDrains(m) && OffersBelong(m)
  {
    hide Conserved, BarriersHold, Record, FlushSeparates;
    CollectorFrame(l.collector, step);
  }

  lemma CollectKeeps(l: Loop, step: Step)
    requires Sound(l) && Enabled(l, Collect(step))
    ensures Sound(Turned(l, Collect(step)))
  {
    CollectAgrees(l, step);
    CollectTurn(l, step);
    hide *;
    CollectorStepKeeps(l, l.(collector := Next(l.collector, step)), step);
  }

  lemma CollectTurn(l: Loop, step: Step)
    requires Sound(l) && Enabled(l, Collect(step))
    ensures var m := l.(collector := Next(l.collector, step));
      Turned(l, Collect(step)) == m && LoopAgrees(m) && !step.Send? && step in {Dequeue, Answer}
  {
    hide Next, Invariant, FlushSeparates;
  }

  lemma QueueAgrees(l: Loop)
    requires Sound(l) && Enabled(l, Queue)
    ensures var m := l.(collector := Next(l.collector, QueueStep(l)));
      CollectorAgrees(m) && ClosingDrains(m) && OffersBelong(m)
  {
    hide Conserved, BarriersHold, FlushSeparates;
    CollectorFrame(l.collector, QueueStep(l));
  }

  lemma QueueKeeps(l: Loop)
    requires Sound(l) && Enabled(l, Queue)
    ensures Sound(Turned(l, Queue))
  {
    QueueAgrees(l);
    QueueTurn(l);
    hide *;
    CollectorStepKeeps(l, l.(collector := Next(l.collector, QueueStep(l))), QueueStep(l));
  }

  lemma QueueTurn(l: Loop)
    requires Sound(l) && Enabled(l, Queue)
    ensures var m := l.(collector := Next(l.collector, QueueStep(l)));
      Turned(l, Queue) == m && LoopAgrees(m) && !QueueStep(l).Send?
  {
    hide Next, Invariant, FlushSeparates;
  }

  /** Beginning a command touches nothing but the collector's lock; beginning to close it,
      with the scheduler gone, leaves nobody who could still offer. */
  lemma BeginKeeps(l: Loop, m: Loop, step: Step)
    requires Sound(l) && l.collector.phase == Free && step in {Step.BeginSnapshot, Step.BeginClose}
    requires m == l.(phase := m.phase, collector := Next(l.collector, step))
    requires LoopAgrees(m) && CollectorAgrees(m)
    requires m.phase.Flushing? || m.phase.Closing?
    ensures Sound(m)
  {
    hide FlushSeparates;
    assert OffersBelong(m);
    CollectorStepKeeps(l, m, step);
  }

  /** Moving on within the loop, perhaps with the scheduler joined. */
  lemma PhaseKeeps(l: Loop, m: Loop)
    requires Sound(l) && l.collector == m.collector && l.owners == m.owners && l.flushes == m.flushes
    requires |m.stages| == |l.stages| && (m.done == l.done || m.done == None)
    requires OneScheduler(m) && LoopAgrees(m) && CollectorAgrees(m) && OffersBelong(m)
    requires m.phase.Flushing? ==> m.phase == l.phase
    ensures Sound(m)
  {
    hide Invariant, Collecting.Reported;
    assert forall i :: 0 <= i < |l.flushes| ==> FlushSeparates(l.flushes[i], l) ==> FlushSeparates(m.flushes[i], m);
  }

  lemma DrainedKeeps(l: Loop, flush: bool, overdue: bool)
    requires Sound(l) && Enabled(l, Drained(flush, overdue))
    ensures Sound(Turned(l, Drained(flush, overdue)))
  {
    hide Invariant, FlushSeparates;
    var m := Turned(l, Drained(flush, overdue));
    if m.collector == l.collector {
      PhaseKeeps(l, m);
    } else {
      BeginKeeps(l, m, if l.phase.cause.Leaving? then BeginClose else BeginSnapshot);
    }
  }

  lemma RecordKeeps(l: Loop)
    requires Sound(l) && Enabled(l, FlushEnds(true))
    ensures var m := Noted(l, l.phase.cause).(phase := Selecting);
      forall i :: 0 <= i < |m.flushes| ==> FlushSeparates(m.flushes[i], m)
  {
    var m := Noted(l, l.phase.cause).(phase := Selecting);
    if l.phase.cause != AtBoundary {
      assert |Collecting.Reported(l.collector.reports)| == |l.collector.accepted|;
      hide Invariant, Collecting.Reported;
      assert l.collector.reports[..|l.collector.reports|] == l.collector.reports;
      assert FlushSeparates(m.flushes[|l.flushes|], m);
    }
    hide Invariant, Collecting.Reported;
    forall i | 0 <= i < |l.flushes| ensures FlushSeparates(m.flushes[i], m) {
      assert FlushSeparates(l.flushes[i], l);
    }
  }

  lemma FlushEndsKeeps(l: Loop, ok: bool)
    requires Sound(l) && Enabled(l, FlushEnds(ok))
    ensures Sound(Turned(l, FlushEnds(ok)))
  {
    RecordKeeps(l);
    hide Invariant, FlushSeparates;
    var recorded, m := Noted(l, l.phase.cause).(phase := Selecting), Turned(l, FlushEnds(ok));
    assert Sound(recorded);
    PhaseKeeps(recorded, m);
  }

  lemma InstallKeeps(l: Loop, start: bool)
    requires Sound(l) && Enabled(l, Install(start))
    ensures Sound(Turned(l, Install(start)))
  {
    hide Invariant, Collecting.Reported;
  }

  lemma TurnKeepsSound(l: Loop, t: Turn)
    requires Sound(l) && Enabled(l, t)
    ensures Sound(Turned(l, t))
  {
    match t {
      case Produce(k, sample) => ProduceKeeps(l, k, sample);
      case Check(k) => CheckKeeps(l, t);
      case Count(k) => CheckKeeps(l, t);
      case Collect(step) => CollectKeeps(l, step);
      case Queue => QueueKeeps(l);
      case Report => ReportKeeps(l);
      case Drained(flush, overdue) => DrainedKeeps(l, flush, overdue);
      case FlushEnds(ok) => FlushEndsKeeps(l, ok);
      case Install(start) => InstallKeeps(l, start);
      case _ =>
        hide Invariant, FlushSeparates;
        PhaseKeeps(l, Turned(l, t));
    }
  }

  lemma ReportKeeps(l: Loop)
    requires Sound(l) && Enabled(l, Turn.Report)
    ensures Sound(Turned(l, Turn.Report))
  {
    hide Invariant, FlushSeparates;
    BeginKeeps(l, Turned(l, Turn.Report), BeginSnapshot);
  }

  lemma {:induction false} EveryLoopIsSound(capacity: nat, turns: seq<Turn>)
    requires Possible(capacity, turns)
    ensures Sound(After(capacity, turns))
    decreases |turns|
  {
    if turns == [] {
      EveryRunKeepsInvariant(capacity, []);
      hide Invariant;
    } else {
      hide Sound, Enabled, Turned;
      EveryLoopIsSound(capacity, turns[..|turns| - 1]);
      TurnKeepsSound(After(capacity, turns[..|turns| - 1]), turns[|turns| - 1]);
    }
  }

  // ----- What it means -------------------------------------------------------------------------

  /** At most one scheduler is live, and it is the one the controller holds. The controller
      never waits on a channel whose value was already taken: what it waits for is still
      running or has its result there, so the wait ends once the scheduler does. */
  lemma SchedulersExclude(capacity: nat, turns: seq<Turn>)
    requires Possible(capacity, turns)
    ensures var l := After(capacity, turns);
      && (forall j: nat, k: nat :: j < |l.stages| && k < |l.stages| && !l.stages[j].Joined? && !l.stages[k].Joined? ==> j == k)
      && (l.phase.Waiting? ==>
            && l.phase.on < |l.stages| && !l.stages[l.phase.on].Joined?
            && (l.stages[l.phase.on].Ended? ==> Enabled(l, Join))
            && (l.stages[l.phase.on].Running? && ProducersDone(l.collector) ==>
                  Enabled(Turned(l, Return(l.phase.on, false)), Join)))
      && (l.done.Some? ==> l.done.value < |l.stages| && !l.stages[l.done.value].Joined?)
  {
    EveryLoopIsSound(capacity, turns);
    hide Possible, After, Invariant, FlushSeparates;
  }

  /** Each closing flush separates the schedulers: the reports up to and including its own
      hold exactly the samples ever accepted from the schedulers before it, and nothing
      from any later one. */
  lemma ClosingFlushSeparates(capacity: nat, turns: seq<Turn>, i: nat)
    requires Possible(capacity, turns) && i < |After(capacity, turns).flushes|
    ensures var l := After(capacity, turns);
      var f := l.flushes[i];
      && f.accepted <= |l.owners| == |l.collector.accepted| && f.reports <= |l.collector.reports|
      && Collecting.Reported(l.collector.reports[..f.reports]) == l.collector.accepted[..f.accepted]
      && forall s :: 0 <= s < |l.owners| ==> (l.owners[s] < f.schedulers <==> s < f.accepted)
  {
    EveryLoopIsSound(capacity, turns);
    var l := After(capacity, turns);
    var f := l.flushes[i];
    hide Possible, After;
    assert FlushSeparates(f, l);
    ReportedPrefix(l.collector.reports, f.reports);
    assert Collecting.Reported(l.collector.reports) <= l.collector.accepted;
    hide Invariant, Collecting.Reported;
  }

  /** The collector is closed only when no scheduler is left and no offer is in progress,
      which is what its Close asks for: nothing is queued behind the close command, and in
      the end every accepted sample and every drop has been reported. */
  lemma CloseIsSafe(capacity: nat, turns: seq<Turn>)
    requires Possible(capacity, turns)
    ensures var l := After(capacity, turns);
      && (l.collector.closed ==>
            && (forall k: nat :: k < |l.stages| ==> l.stages[k].Joined?)
            && ProducersDone(l.collector) && l.collector.late == 0)
      && (l.phase.Finished? ==>
            && Collecting.Reported(l.collector.reports) == l.collector.accepted
            && DropsReported(l.collector.reports) == l.collector.lost)
  {
    EveryLoopIsSound(capacity, turns);
    hide Possible, After;
    var l := After(capacity, turns);
    if l.phase.Finished? {
      assert Collecting.Reported(l.collector.reports) <= l.collector.accepted;
    }
  }
}
