/** Where the controller's loop leads: commands are answered, a replacement goes through,
    closing ends, and after an error nothing is started any more. */
module SchedulerProgress {
  import opened Wire
  import opened Snapshots
  import opened Recording
  import Collecting
  import opened Schedulers

  /** The turns are possible one after another and lead from the first loop to the second. */
  ghost predicate Leads(l: Loop, turns: seq<Turn>, m: Loop)
    decreases |turns|
  {
    if turns == [] then l == m
    else Enabled(l, turns[0]) && Leads(Turned(l, turns[0]), turns[1..], m)
  }

  lemma {:induction false} LeadsOn(l: Loop, turns: seq<Turn>, m: Loop, more: seq<Turn>, n: Loop)
    requires Leads(l, turns, m) && Leads(m, more, n)
    ensures Leads(l, turns + more, n)
    decreases |turns|
  {
    hide Enabled, Turned;
    if turns == [] {
      assert turns + more == more;
    } else {
      LeadsOn(Turned(l, turns[0]), turns[1..], m, more, n);
      assert (turns + more)[1..] == turns[1..] + more;
    }
  }

  lemma LeadsFirst(l: Loop, t: Turn, turns: seq<Turn>, m: Loop)
    requires Enabled(l, t) && Leads(Turned(l, t), turns, m)
    ensures Leads(l, [t] + turns, m)
  {
    hide Enabled, Turned;
    assert ([t] + turns)[1..] == turns;
  }

  // ----- Commands are answered ----------------------------------------------------------------

  /** How far the command of the loop is from its answer. */
  function Distance(p: Collecting.Phase): nat {
    match p
    case SnapshotBlocked => 2
    case CloseBlocked => 2
    case SnapshotQueued => 1
    case CloseQueued => 1
    case _ => 0
  }

  /** The next turn on the way to the answer. */
  function Onward(l: Loop): Turn {
    if Distance(l.collector.phase) == 2 && |l.collector.events| < l.collector.capacity then Queue
    else if l.collector.held.Some? then Collect(Collecting.Answer)
    else Collect(Collecting.Dequeue)
  }

  ghost predicate Commanding(l: Loop) {
    && Sound(l) && l.collector.capacity > 0
    && (l.phase.Flushing? || l.phase.Closing?) && Distance(l.collector.phase) > 0
  }

  /** Every such turn brings the answer nearer and accepts nothing. */
  lemma OnwardAdvances(l: Loop)
    requires Commanding(l)
    ensures Enabled(l, Onward(l))
    ensures var m := Turned(l, Onward(l));
      && m == l.(collector := m.collector) && m.collector.accepted == l.collector.accepted
      && m.collector.capacity == l.collector.capacity
      && (|| Distance(m.collector.phase) < Distance(l.collector.phase)
          || (m.collector.phase == l.collector.phase && |m.collector.events| < |l.collector.events|))
  {
    hide FlushSeparates, OneScheduler, OwnersKnown, ClosingDrains, Collecting.Conserved, Collecting.BarriersHold, Record;
    assert Collecting.OneCommand(l.collector);
  }

  /** A command the loop has begun is answered in the end, without anything being accepted
      meanwhile, when the producers are still. */
  lemma {:induction false} CommandIsAnswered(l: Loop) returns (turns: seq<Turn>, m: Loop)
    requires Sound(l) && l.collector.capacity > 0 && (l.phase.Flushing? || l.phase.Closing?)
    ensures Leads(l, turns, m) && Sound(m)
    ensures m == l.(collector := m.collector) && Distance(m.collector.phase) == 0
    ensures m.collector.accepted == l.collector.accepted && m.collector.capacity == l.collector.capacity
    decreases Distance(l.collector.phase), |l.collector.events|
  {
    hide Sound, Turned, Enabled;
    if Distance(l.collector.phase) == 0 {
      turns, m := [], l;
    } else {
      OnwardAdvances(l);
      TurnKeepsSound(l, Onward(l));
      turns, m := CommandIsAnswered(Turned(l, Onward(l)));
      LeadsFirst(l, Onward(l), turns, m);
      turns := [Onward(l)] + turns;
    }
  }

  // ----- A replacement goes through -------------------------------------------------------------

  lemma WaitsForTheLiveOne(l: Loop)
    requires Sound(l) && l.phase.Waiting?
    ensures l.phase.on < |l.stages| && l.done == Some(l.phase.on) && !l.stages[l.phase.on].Joined?
  {
    hide Collecting.Invariant, FlushSeparates;
  }

  /** The wait for a scheduler whose offers are done ends with the scheduler joined. */
  lemma JoinGoesThrough(l: Loop) returns (turns: seq<Turn>, m: Loop)
    requires Sound(l) && l.phase.Waiting? && Collecting.ProducersDone(l.collector)
    ensures Leads(l, turns, m) && Sound(m) && |m.stages| == |l.stages|
    ensures m == l.(phase := Schedulers.Phase.Halted(l.phase.cause), stages := m.stages, done := None)
  {
    hide Sound;
    WaitsForTheLiveOne(l);
    var k := l.phase.on;
    if l.stages[k].Running? {
      TurnKeepsSound(l, Return(k, false));
      var ended := Turned(l, Return(k, false));
      TurnKeepsSound(ended, Join);
      m := Turned(ended, Join);
      LeadsFirst(ended, Join, [], m);
      LeadsFirst(l, Return(k, false), [Join], m);
      turns := [Return(k, false)] + [Join];
    } else {
      TurnKeepsSound(l, Join);
      m := Turned(l, Join);
      LeadsFirst(l, Join, [], m);
      turns := [Join];
    }
  }

  /** With no offer in progress, the loop can stop what runs, for any cause. */
  lemma StopGoesThrough(l: Loop, cause: Cause) returns (turns: seq<Turn>, m: Loop)
    requires Sound(l) && l.phase.Selecting? && Collecting.ProducersDone(l.collector) && cause != AtBoundary
    ensures Leads(l, turns, m) && Sound(m) && |m.stages| == |l.stages|
    ensures m == l.(phase := Schedulers.Phase.Halted(cause), stages := m.stages, done := None)
  {
    hide Sound;
    TurnKeepsSound(l, Stop(cause));
    var stopped := Turned(l, Stop(cause));
    if l.done.None? {
      turns, m := [], stopped;
    } else {
      turns, m := JoinGoesThrough(stopped);
    }
    LeadsFirst(l, Stop(cause), turns, m);
    turns := [Stop(cause)] + turns;
  }

  /** With the old scheduler gone, a flush that is asked for is made and recorded, and leaves
      nothing accepted that is not reported. */
  lemma FlushGoesThrough(l: Loop) returns (turns: seq<Turn>, m: Loop)
    requires Sound(l) && l.phase == Schedulers.Phase.Halted(Replacing) && l.collector.capacity > 0
    ensures Leads(l, turns, m) && Sound(m) && m.phase.Installing?
    ensures m.stages == l.stages && m.done == l.done && m.collector.accepted == l.collector.accepted
    ensures Collecting.Reported(m.collector.reports) == m.collector.accepted
    ensures m.flushes == l.flushes + [Flush(|m.stages|, |m.collector.accepted|, |m.collector.reports|)]
  {
    hide Sound;
    TurnKeepsSound(l, Drained(true, false));
    var flushing := Turned(l, Drained(true, false));
    var answered;
    turns, answered := CommandIsAnswered(flushing);
    FlushLeavesNothing(answered);
    TurnKeepsSound(answered, FlushEnds(true));
    m := Turned(answered, FlushEnds(true));
    LeadsFirst(answered, FlushEnds(true), [], m);
    LeadsOn(flushing, turns, answered, [FlushEnds(true)], m);
    turns := turns + [FlushEnds(true)];
    LeadsFirst(l, Drained(true, false), turns, m);
    turns := [Drained(true, false)] + turns;
  }

  lemma FlushLeavesNothing(l: Loop)
    requires Sound(l) && l.phase.Flushing? && l.phase.cause != AtBoundary && Distance(l.collector.phase) == 0
    ensures l.collector.phase == Collecting.Free && Collecting.Reported(l.collector.reports) == l.collector.accepted
  {
    hide FlushSeparates, OneScheduler, OwnersKnown, Collecting.BarriersHold, Collecting.OneCommand, OffersBelong, Collecting.Reported;
  }

  /** Whenever the loop selects and no offer is in progress, a replacement can go through: the
      old scheduler is joined, everything accepted so far is reported by one closing flush,
      and a new scheduler runs. */
  lemma ReplacementGoesThrough(l: Loop) returns (turns: seq<Turn>, m: Loop)
    requires Sound(l) && l.phase.Selecting? && Collecting.ProducersDone(l.collector) && l.collector.capacity > 0
    ensures Leads(l, turns, m) && Sound(m) && m.phase.Selecting?
    ensures |m.stages| == |l.stages| + 1 && m.done == Some(|l.stages|) && m.stages[|l.stages|].Running?
    ensures m.collector.accepted == l.collector.accepted == Collecting.Reported(m.collector.reports)
    ensures m.flushes == l.flushes + [Flush(|l.stages|, |m.collector.accepted|, |m.collector.reports|)]
  {
    hide Sound;
    var stopped, flushed, more;
    turns, stopped := StopGoesThrough(l, Replacing);
    more, flushed := FlushGoesThrough(stopped);
    LeadsOn(l, turns, stopped, more, flushed);
    TurnKeepsSound(flushed, Install(true));
    m := Turned(flushed, Install(true));
    LeadsFirst(flushed, Install(true), [], m);
    LeadsOn(l, turns + more, flushed, [Install(true)], m);
    turns := turns + more + [Install(true)];
  }

  /** And the loop can leave: everything accepted and every drop is reported in the end. */
  lemma LeavingGoesThrough(l: Loop) returns (turns: seq<Turn>, m: Loop)
    requires Sound(l) && l.phase.Selecting? && Collecting.ProducersDone(l.collector) && l.collector.capacity > 0
    ensures Leads(l, turns, m) && Sound(m) && m.phase.Finished? && |m.stages| == |l.stages|
    ensures m.collector.accepted == l.collector.accepted == Collecting.Reported(m.collector.reports)
    ensures Collecting.DropsReported(m.collector.reports) == m.collector.lost
  {
    hide Sound;
    var stopped, closed, more;
    turns, stopped := StopGoesThrough(l, Leaving);
    TurnKeepsSound(stopped, Drained(false, false));
    var closing := Turned(stopped, Drained(false, false));
    more, closed := CommandIsAnswered(closing);
    ClosedIsStopped(closed);
    TurnKeepsSound(closed, CloseEnds);
    m := Turned(closed, CloseEnds);
    LeadsFirst(closed, CloseEnds, [], m);
    LeadsOn(closing, more, closed, [CloseEnds], m);
    LeadsFirst(stopped, Drained(false, false), more + [CloseEnds], m);
    LeadsOn(l, turns, stopped, [Drained(false, false)] + (more + [CloseEnds]), m);
    turns := turns + ([Drained(false, false)] + (more + [CloseEnds]));
    FinishedIsReported(m);
  }

  lemma ClosedIsStopped(l: Loop)
    requires Sound(l) && l.phase.Closing? && Distance(l.collector.phase) == 0
    ensures l.collector.phase == Collecting.Stopped
  {
    hide Collecting.Invariant, FlushSeparates;
  }

  lemma FinishedIsReported(l: Loop)
    requires Sound(l) && l.phase.Finished?
    ensures Collecting.Reported(l.collector.reports) == l.collector.accepted
    ensures Collecting.DropsReported(l.collector.reports) == l.collector.lost
  {
    hide FlushSeparates;
    assert Collecting.Reported(l.collector.reports) <= l.collector.accepted;
  }

  // ----- After an error ---------------------------------------------------------------------------

  /** The loop is on its way out. */
  predicate OnItsWayOut(l: Loop) {
    || ((l.phase.Waiting? || l.phase.Halted?) && l.phase.cause == Leaving)
    || l.phase.Closing? || l.phase.Finished?
  }

  /** An overdue interval, a flush that fails, a scheduler's error, or the end of the run. */
  predicate EndsTheLoop(l: Loop, t: Turn)
    requires Enabled(l, t)
  {
    match t
    case Drained(_, overdue) => l.phase.cause == Leaving || overdue
    case FlushEnds(ok) => !ok
    case TakeDone => l.stages[l.done.value].failed
    case Stop(cause) => cause == Leaving
    case _ => false
  }

  /** Exactly these turns set the loop on its way out, and it never turns back. */
  lemma WayOutExactly(l: Loop, t: Turn)
    requires Enabled(l, t)
    ensures OnItsWayOut(Turned(l, t)) <==> OnItsWayOut(l) || EndsTheLoop(l, t)
    ensures OnItsWayOut(l) ==> |Turned(l, t).stages| == |l.stages| && Turned(l, t).flushes == l.flushes
  {
    hide Collecting.Next;
  }

  /** Once on its way out the loop starts no scheduler and closes no revision, whatever comes. */
  lemma {:induction false} NothingStartsAfterAnError(l: Loop, turns: seq<Turn>, m: Loop)
    requires OnItsWayOut(l) && Leads(l, turns, m)
    ensures OnItsWayOut(m) && |m.stages| == |l.stages| && m.flushes == l.flushes
    decreases |turns|
  {
    hide Enabled, Turned, OnItsWayOut;
    if turns == [] {
    } else {
      WayOutExactly(l, turns[0]);
      NothingStartsAfterAnError(Turned(l, turns[0]), turns[1..], m);
    }
  }
}
