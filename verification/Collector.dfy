/** The bounded-queue collector: producers offer samples without blocking, one
    consumer records them, and snapshot and close commands are barriers in the
    same queue. Every access to shared memory by any party is one step: an offer first
    reads the closed flag, then sends, and counts a drop when the send failed; the
    consumer first takes an event from the queue, and answers a command afterwards. */
module Collecting {
  import opened Wire
  import opened CountMaps
  import opened Snapshots
  import opened Recording

  /** A queue entry. A command remembers how many samples had been accepted when it
      was queued; only the proofs read that number. */
  datatype Event =
    | Data(sample: Sample)
    | SnapshotCommand(mark: nat)
    | CloseCommand(mark: nat)

  /** Where the holder of the control lock stands. It receives the answer to its command, and
      releases the lock, in the step that sends the answer. */
  datatype Phase = Free | SnapshotBlocked | SnapshotQueued | CloseBlocked | CloseQueued | Stopped

  /** One reply: the samples it covers, the drops it reports and the snapshot sent. */
  datatype Report = Report(samples: seq<Sample>, dropped: nat, snapshot: Snapshot, mark: nat)

  /** `held` is the command the consumer has taken and not answered yet, `offering` counts
      the offers that found the collector open and have not sent, and `failing` those whose
      send found the queue full and that have not counted the drop. */
  datatype State = State(
    capacity: nat,
    events: seq<Event>,
    dropped: nat,
    closed: bool,
    phase: Phase,
    snapshot: Snapshot,
    held: Option<Event>,
    offering: nat,
    failing: nat,
    // What has happened so far; `late` counts the samples queued behind the close command.
    accepted: seq<Sample>,
    lost: nat,
    pending: seq<Sample>,
    reports: seq<Report>,
    late: nat)

  datatype Step =
    | CheckOpen
    | Send(sample: Sample)
    | CountDrop
    | BeginSnapshot
    | QueueSnapshot
    | BeginClose
    | QueueClose
    | Dequeue
    | Answer

  function Initial(capacity: nat): State {
    State(capacity, [], 0, false, Free, EMPTY, None, 0, 0, [], 0, [], [], 0)
  }

  /** The send of an offer that found the collector open, whatever has happened since. */
  function Sent(s: State, sample: Sample): State {
    if s.offering == 0 then s
    else if |s.events| < s.capacity then
      s.(events := s.events + [Data(sample)], offering := s.offering - 1, accepted := s.accepted + [sample],
         late := if s.phase in {CloseQueued, Stopped} then s.late + 1 else s.late)
    else s.(offering := s.offering - 1, failing := s.failing + 1)
  }

  /** The report that answers a command, carrying the drops counted since the last one. */
  function Reply(s: State, mark: nat): Report {
    var counters := s.snapshot.counters.(droppedSamples := s.dropped);
    Report(s.pending, s.dropped, s.snapshot.(counters := counters), mark)
  }

  /** The consumer takes the next event: it records a sample, and holds on to a command. */
  function Dequeued(s: State): State {
    if s.events == [] || s.phase == Stopped || s.held.Some? then s
    else
      var rest := s.(events := s.events[1..]);
      match s.events[0]
      case Data(sample) => rest.(snapshot := Record(s.snapshot, sample), pending := s.pending + [sample])
      case command => rest.(held := Some(command))
  }

  /** The consumer takes the drop count and answers the command it holds. */
  function Answered(s: State): State {
    if s.held.None? || s.held.value.Data? then s
    else
      var command := s.held.value;
      s.(held := None, dropped := 0, snapshot := EMPTY, pending := [],
         reports := s.reports + [Reply(s, command.mark)],
         phase := if command.SnapshotCommand? then Free else Stopped)
  }

  function Next(s: State, step: Step): State {
    match step
    case CheckOpen => if s.closed then s else s.(offering := s.offering + 1)
    case Send(sample) => Sent(s, sample)
    case CountDrop =>
      if s.failing == 0 then s else s.(failing := s.failing - 1, dropped := s.dropped + 1, lost := s.lost + 1)
    case BeginSnapshot => if s.phase == Free then s.(phase := SnapshotBlocked) else s
    case QueueSnapshot =>
      if s.phase == SnapshotBlocked && |s.events| < s.capacity
      then s.(events := s.events + [SnapshotCommand(|s.accepted|)], phase := SnapshotQueued) else s
    case BeginClose => if s.phase == Free then s.(phase := CloseBlocked, closed := true) else s
    case QueueClose =>
      if s.phase == CloseBlocked && |s.events| < s.capacity
      then s.(events := s.events + [CloseCommand(|s.accepted|)], phase := CloseQueued) else s
    case Dequeue => Dequeued(s)
    case Answer => Answered(s)
  }

  function RunFrom(s: State, steps: seq<Step>): State {
    if |steps| == 0 then s
    else Next(RunFrom(s, steps[..|steps| - 1]), steps[|steps| - 1])
  }

  function Run(capacity: nat, steps: seq<Step>): State {
    RunFrom(Initial(capacity), steps)
  }

  // ----- The invariant ------------------------------------------------------------------

  function Samples(events: seq<Event>): seq<Sample> {
    if |events| == 0 then []
    else (if events[0].Data? then [events[0].sample] else []) + Samples(events[1..])
  }

  lemma {:induction false} SamplesAppend(events: seq<Event>, e: Event)
    ensures Samples(events + [e]) == Samples(events) + Samples([e])
  {
    if |events| == 0 {
      assert events + [e] == [e];
    } else {
      assert (events + [e])[1..] == events[1..] + [e];
      SamplesAppend(events[1..], e);
    }
  }

  function Reported(reports: seq<Report>): seq<Sample> {
    if |reports| == 0 then [] else Reported(reports[..|reports| - 1]) + reports[|reports| - 1].samples
  }

  function DropsReported(reports: seq<Report>): nat {
    if |reports| == 0 then 0 else DropsReported(reports[..|reports| - 1]) + reports[|reports| - 1].dropped
  }

  /** Every accepted sample is, in order, in exactly one report, in the consumer's
      snapshot, or in the queue; every dropped one is counted once. */
  ghost predicate Conserved(s: State) {
    && Reported(s.reports) + s.pending + Samples(s.events) == s.accepted
    && DropsReported(s.reports) + s.dropped == s.lost
    && s.snapshot == Recorded(s.pending)
    && forall i :: 0 <= i < |s.reports| ==> ReportFaithful(s.reports[i])
  }

  ghost predicate ReportFaithful(r: Report) {
    var recorded := Recorded(r.samples);
    r.snapshot == recorded.(counters := recorded.counters.(droppedSamples := r.dropped))
  }

  /** The command belongs to the lock holder, who waits for its answer. */
  predicate Awaited(command: Event, phase: Phase) {
    match command
    case Data(_) => false
    case SnapshotCommand(_) => phase == SnapshotQueued
    case CloseCommand(_) => phase == CloseQueued
  }

  ghost predicate OnlyData(events: seq<Event>) {
    forall i :: 0 <= i < |events| ==> events[i].Data?
  }

  /** Exactly the command the lock holder queued is in the queue or in the consumer's hands. */
  ghost predicate OneCommand(s: State) {
    && s.closed == (s.phase in {CloseBlocked, CloseQueued, Stopped})
    && (forall i :: 0 <= i < |s.events| && !s.events[i].Data? ==>
          && s.held.None? && Awaited(s.events[i], s.phase)
          && forall j :: 0 <= j < |s.events| && j != i ==> s.events[j].Data?)
    && (s.held.Some? ==> Awaited(s.held.value, s.phase) && OnlyData(s.events))
    && (s.phase in {SnapshotQueued, CloseQueued} && s.held.None? ==>
          exists i :: 0 <= i < |s.events| && !s.events[i].Data?)
    && (s.phase == Stopped ==> s.pending == [] && s.reports != [])
  }

  /** How many samples were accepted before a command. */
  ghost predicate CommandMarks(s: State, mark: nat) {
    s.phase == CloseQueued ==> mark + s.late == |s.accepted|
  }

  /** A command has exactly the samples accepted before it ahead of it, and an answered one
      has all of them in its report or an earlier one. What is accepted after a close
      command was queued is late. */
  ghost predicate BarriersHold(s: State) {
    && (forall i :: 0 <= i < |s.events| && !s.events[i].Data? ==>
          && s.events[i].mark == |Reported(s.reports)| + |s.pending| + |Samples(s.events[..i])|
          && CommandMarks(s, s.events[i].mark))
    && (s.held.Some? && !s.held.value.Data? ==>
          && s.held.value.mark == |Reported(s.reports)| + |s.pending|
          && CommandMarks(s, s.held.value.mark))
    && (forall i :: 0 <= i < |s.reports| ==> |Reported(s.reports[..i + 1])| == s.reports[i].mark)
    && (s.phase == Stopped ==> |Reported(s.reports)| + s.late == |s.accepted|)
    && (s.phase != Stopped && s.phase != CloseQueued ==> s.late == 0)
  }

  ghost predicate Invariant(s: State) {
    && |s.events| <= s.capacity
    && Conserved(s)
    && OneCommand(s)
    && BarriersHold(s)
  }

  // ----- Producers ------------------------------------------------------------------------

  lemma QueueKeepsBarriers(s: State, e: Event, t: State)
    requires Invariant(s)
    requires t.events == s.events + [e] && t.reports == s.reports && t.pending == s.pending && t.held == s.held
    requires t.accepted == s.accepted + Samples([e])
    requires e.Data? ==> t.phase == s.phase && t.late == (if s.phase in {CloseQueued, Stopped} then s.late + 1 else s.late)
    requires !e.Data? ==> e.mark == |s.accepted| && t.late == s.late && s.phase in {SnapshotBlocked, CloseBlocked}
                          && t.phase in {SnapshotQueued, CloseQueued}
    ensures BarriersHold(t)
  {
    hide Recorded;
    SamplesAppend(s.events, e);
    forall i | 0 <= i < |t.events| && !t.events[i].Data?
      ensures t.events[i].mark == |Reported(t.reports)| + |t.pending| + |Samples(t.events[..i])|
      ensures CommandMarks(t, t.events[i].mark)
    {
      assert i < |s.events| ==> t.events[..i] == s.events[..i] && t.events[i] == s.events[i];
      assert i == |s.events| ==> t.events[..i] == s.events;
    }
  }

  lemma QueueKeepsConserved(s: State, e: Event, t: State)
    requires Conserved(s)
    requires t.events == s.events + [e] && t.reports == s.reports && t.pending == s.pending
    requires t.snapshot == s.snapshot && t.dropped == s.dropped && t.lost == s.lost
    requires t.accepted == s.accepted + Samples([e])
    ensures Conserved(t)
  {
    hide Recorded, ReportFaithful;
    SamplesAppend(s.events, e);
  }

  lemma SendKeepsInvariant(s: State, sample: Sample)
    requires Invariant(s)
    ensures Invariant(Sent(s, sample))
  {
    var t := Sent(s, sample);
    if s.offering > 0 && |s.events| < s.capacity {
      assert Samples([Data(sample)]) == [sample];
      QueueKeepsBarriers(s, Data(sample), t);
      QueueKeepsConserved(s, Data(sample), t);
      SendKeepsOneCommand(s, sample);
    } else {
      SameQueueKeepsInvariant(s, t);
    }
  }

  lemma SendKeepsOneCommand(s: State, sample: Sample)
    requires OneCommand(s)
    ensures OneCommand(Sent(s, sample))
  {
    var t := Sent(s, sample);
    if t.events != s.events && s.phase in {SnapshotQueued, CloseQueued} && s.held.None? {
      var i :| 0 <= i < |s.events| && !s.events[i].Data?;
      assert t.events[i] == s.events[i];
    }
  }

  lemma SameQueueKeepsInvariant(s: State, t: State)
    requires Invariant(s) && OneCommand(t)
    requires t.events == s.events && t.reports == s.reports && t.pending == s.pending && t.held == s.held
    requires t.snapshot == s.snapshot && t.accepted == s.accepted && t.capacity == s.capacity && t.late == s.late
    requires t.lost - t.dropped == s.lost - s.dropped
    requires t.phase == s.phase || (s.phase == Free && t.phase in {SnapshotBlocked, CloseBlocked})
    ensures Invariant(t)
  {
    hide Recorded, ReportFaithful, Reported, Samples;
  }

  lemma FlagKeepsInvariant(s: State, step: Step)
    requires Invariant(s) && step in {CheckOpen, CountDrop}
    ensures Invariant(Next(s, step))
  {
    hide Conserved, BarriersHold;
    SameQueueKeepsInvariant(s, Next(s, step));
  }

  // ----- Commands ---------------------------------------------------------------------------

  lemma CommandKeepsInvariant(s: State, step: Step)
    requires Invariant(s) && step in {BeginSnapshot, QueueSnapshot, BeginClose, QueueClose}
    ensures Invariant(Next(s, step))
  {
    hide BarriersHold, Conserved;
    var t := Next(s, step);
    if t == s {
    } else if step.BeginSnapshot? || step.BeginClose? {
      SameQueueKeepsInvariant(s, t);
    } else {
      var e := t.events[|s.events|];
      assert !e.Data? && Samples([e]) == [];
      QueueKeepsBarriers(s, e, t);
      QueueKeepsConserved(s, e, t);
    }
  }

  // ----- The consumer -----------------------------------------------------------------------

  /** The consumer can take an event. */
  predicate Ready(s: State) {
    s.events != [] && s.phase != Stopped && s.held.None?
  }

  lemma DequeueKeepsConserved(s: State)
    requires Conserved(s) && Ready(s)
    ensures Conserved(Dequeued(s))
  {
    hide Record, ReportFaithful, Reported, Recorded;
    var t := Dequeued(s);
    if s.events[0].Data? {
      var sample, covered := s.events[0].sample, Reported(s.reports);
      RecordedAppend(s.pending, sample);
      assert Samples(s.events) == [sample] + Samples(t.events);
      assert covered + (s.pending + [sample]) + Samples(t.events) == covered + s.pending + ([sample] + Samples(t.events));
    } else {
      assert Samples(s.events) == [] + Samples(t.events) == Samples(t.events);
    }
  }

  lemma DequeueKeepsOneCommand(s: State)
    requires Invariant(s) && Ready(s)
    ensures OneCommand(Dequeued(s))
  {
    hide Conserved, BarriersHold, Record;
    var t := Dequeued(s);
    assert forall i :: 0 <= i < |t.events| ==> t.events[i] == s.events[i + 1];
    if s.phase in {SnapshotQueued, CloseQueued} && s.events[0].Data? {
      var i :| 0 <= i < |s.events| && !s.events[i].Data?;
      assert t.events[i - 1] == s.events[i];
    }
  }

  lemma DequeueKeepsBarriers(s: State)
    requires Invariant(s) && Ready(s)
    ensures BarriersHold(Dequeued(s))
  {
    hide Record, Recorded, Reported;
    var t := Dequeued(s);
    forall i | 0 <= i < |t.events| && !t.events[i].Data?
      ensures t.events[i].mark == |Reported(t.reports)| + |t.pending| + |Samples(t.events[..i])|
      ensures CommandMarks(t, t.events[i].mark)
    {
      assert t.events[i] == s.events[i + 1];
      assert s.events[..i + 1] == [s.events[0]] + t.events[..i];
    }
    assert Samples(s.events[..0]) == [];
  }

  lemma ReportedAppend(reports: seq<Report>, r: Report)
    ensures Reported(reports + [r]) == Reported(reports) + r.samples
    ensures DropsReported(reports + [r]) == DropsReported(reports) + r.dropped
  {
    assert (reports + [r])[..|reports|] == reports;
  }

  lemma ReplyFaithful(s: State, mark: nat)
    requires s.snapshot == Recorded(s.pending)
    ensures ReportFaithful(Reply(s, mark))
    ensures Reply(s, mark).samples == s.pending && Reply(s, mark).dropped == s.dropped
  {
  }

  lemma RecordedNothing()
    ensures Recorded([]) == EMPTY
  {
  }

  lemma AnswerKeepsConserved(s: State)
    requires Conserved(s)
    ensures Conserved(Answered(s))
  {
    hide Record, Recorded, ReportFaithful, Reported, DropsReported, Reply, Samples;
    if s.held.Some? && !s.held.value.Data? {
      var t, r := Answered(s), Reply(s, s.held.value.mark);
      ReportedAppend(s.reports, r);
      RecordedNothing();
      ReplyFaithful(s, s.held.value.mark);
      assert Reported(t.reports) + [] + Samples(t.events) == Reported(s.reports) + s.pending + Samples(s.events);
    }
  }

  lemma AnswerKeepsBarriers(s: State)
    requires BarriersHold(s) && OneCommand(s)
    ensures BarriersHold(Answered(s))
  {
    hide Recorded, Reported;
    if s.held.Some? {
      var t, r := Answered(s), Reply(s, s.held.value.mark);
      ReportedAppend(s.reports, r);
      forall i | 0 <= i < |t.reports| ensures |Reported(t.reports[..i + 1])| == t.reports[i].mark {
        assert i < |s.reports| ==> t.reports[..i + 1] == s.reports[..i + 1];
        assert i == |s.reports| ==> t.reports[..i + 1] == t.reports;
      }
    }
  }

  lemma ConsumerKeepsInvariant(s: State, step: Step)
    requires Invariant(s) && step in {Dequeue, Answer}
    ensures Invariant(Next(s, step))
  {
    hide Conserved, BarriersHold, Record;
    if step.Answer? {
      AnswerKeepsConserved(s);
      AnswerKeepsBarriers(s);
    } else if Ready(s) {
      DequeueKeepsConserved(s);
      DequeueKeepsOneCommand(s);
      DequeueKeepsBarriers(s);
    }
  }

  // ----- Every run ----------------------------------------------------------------------------

  lemma StepKeepsInvariant(s: State, step: Step)
    requires Invariant(s)
    ensures Invariant(Next(s, step))
  {
    hide Invariant, Dequeued, Answered;
    match step {
      case Send(sample) => SendKeepsInvariant(s, sample);
      case CheckOpen => FlagKeepsInvariant(s, step);
      case CountDrop => FlagKeepsInvariant(s, step);
      case Dequeue => ConsumerKeepsInvariant(s, step);
      case Answer => ConsumerKeepsInvariant(s, step);
      case _ => CommandKeepsInvariant(s, step);
    }
  }

  /** Conservation, barriers and command exclusivity hold after every interleaving. */
  lemma {:induction false} EveryRunKeepsInvariant(capacity: nat, steps: seq<Step>)
    ensures Invariant(Run(capacity, steps))
    decreases |steps|
  {
    if |steps| == 0 {
      assert Recorded([]) == EMPTY;
    } else {
      EveryRunKeepsInvariant(capacity, steps[..|steps| - 1]);
      StepKeepsInvariant(Run(capacity, steps[..|steps| - 1]), steps[|steps| - 1]);
    }
  }

  lemma {:induction false} ReportedPrefix(reports: seq<Report>, n: nat)
    requires n <= |reports|
    ensures Reported(reports[..n]) <= Reported(reports)
    decreases |reports|
  {
    if n == |reports| {
      assert reports[..n] == reports;
    } else {
      var init := reports[..|reports| - 1];
      ReportedPrefix(init, n);
      assert init[..n] == reports[..n];
    }
  }

  /** The reports up to and including any reply cover exactly the samples accepted
      before its command was queued, no more and no fewer. */
  lemma SnapshotIsBarrier(capacity: nat, steps: seq<Step>, i: nat)
    requires i < |Run(capacity, steps).reports|
    ensures var s := Run(capacity, steps);
      && s.reports[i].mark <= |s.accepted|
      && Reported(s.reports[..i + 1]) == s.accepted[..s.reports[i].mark]
  {
    EveryRunKeepsInvariant(capacity, steps);
    ReportsAreBarriers(Run(capacity, steps), i);
  }

  lemma ReportsAreBarriers(s: State, i: nat)
    requires Invariant(s) && i < |s.reports|
    ensures s.reports[i].mark <= |s.accepted|
    ensures Reported(s.reports[..i + 1]) == s.accepted[..s.reports[i].mark]
  {
    ReportedPrefix(s.reports, i + 1);
    assert Reported(s.reports) <= s.accepted;
  }

  /** Once the close command is answered the reports hold exactly what was accepted before
      it was queued: every accepted sample exactly if no offer that had found the collector
      open sent one afterwards, and every drop exactly if none was counted after the answer. */
  lemma CloseReportsExactly(capacity: nat, steps: seq<Step>)
    requires Run(capacity, steps).phase == Stopped
    ensures var s := Run(capacity, steps);
      && s.late <= |s.accepted|
      && Reported(s.reports) == s.accepted[..|s.accepted| - s.late]
      && (Reported(s.reports) == s.accepted <==> s.late == 0)
      && (DropsReported(s.reports) == s.lost <==> s.dropped == 0)
  {
    EveryRunKeepsInvariant(capacity, steps);
    var s := Run(capacity, steps);
    assert Reported(s.reports) <= s.accepted;
  }

  /** No offer is between its check and its send, or between a failed send and its count. */
  predicate ProducersDone(s: State) {
    s.offering == 0 && s.failing == 0
  }

  /** Closed with its producers done, a collector takes nothing more. */
  ghost predicate Draining(s: State) {
    s.closed && ProducersDone(s) && s.late == 0 && (s.phase == Stopped ==> s.dropped == 0)
  }

  lemma {:induction false} DrainingStays(s: State, steps: seq<Step>)
    requires Draining(s) && OneCommand(s)
    ensures var t := RunFrom(s, steps);
      Draining(t) && t.accepted == s.accepted && t.lost == s.lost && t.closed
    decreases |steps|
  {
    if |steps| == 0 {
    } else {
      DrainingStays(s, steps[..|steps| - 1]);
    }
  }

  lemma {:induction false} RunAppend(s: State, before: seq<Step>, after: seq<Step>)
    ensures RunFrom(s, before + after) == RunFrom(RunFrom(s, before), after)
    decreases |after|
  {
    if |after| == 0 {
      assert before + after == before;
    } else {
      var n := |after| - 1;
      assert (before + after)[..|before| + n] == before + after[..n];
      RunAppend(s, before, after[..n]);
    }
  }

  /** Close called only after all producers have stopped drains everything, whatever happens
      next: the reports hold every accepted sample and every drop. */
  lemma CloseDrainsEverything(capacity: nat, before: seq<Step>, after: seq<Step>)
    requires var s := Run(capacity, before); s.phase == Free && ProducersDone(s)
    ensures var t := Run(capacity, before + [BeginClose] + after);
      && t.accepted == Run(capacity, before).accepted && t.lost == Run(capacity, before).lost
      && (t.phase == Stopped ==> Reported(t.reports) == t.accepted && DropsReported(t.reports) == t.lost)
  {
    var s, closing := Run(capacity, before), Run(capacity, before + [BeginClose]);
    EveryRunKeepsInvariant(capacity, before);
    EveryRunKeepsInvariant(capacity, before + [BeginClose]);
    assert (before + [BeginClose])[..|before|] == before;
    RunAppend(Initial(capacity), before + [BeginClose], after);
    DrainingStays(closing, after);
    if Run(capacity, before + [BeginClose] + after).phase == Stopped {
      CloseReportsExactly(capacity, before + [BeginClose] + after);
    }
  }

  /** A producer that found the collector open just before Close, and sends after its answer. */
  function LosingRun(sample: Sample): seq<Step> {
    [CheckOpen, BeginClose, QueueClose, Dequeue, Answer, Send(sample)]
  }

  lemma OneMoreStep(capacity: nat, steps: seq<Step>, n: nat)
    requires n < |steps|
    ensures Run(capacity, steps[..n + 1]) == Next(Run(capacity, steps[..n]), steps[n])
  {
    assert steps[..n + 1][..n] == steps[..n];
  }

  /** Without that condition a sample is accepted and never reported. */
  lemma LateOfferIsLost(sample: Sample)
    ensures var s := Run(1, LosingRun(sample));
      && s.phase == Stopped && s.events == [Data(sample)] && s.accepted == [sample]
      && Reported(s.reports) == [] && s.late == 1
  {
    var steps := LosingRun(sample);
    hide Run;
    assert Run(1, steps[..0]) == Initial(1) by { FirstState(steps); }
    OneMoreStep(1, steps, 0);
    OneMoreStep(1, steps, 1);
    OneMoreStep(1, steps, 2);
    OneMoreStep(1, steps, 3);
    OneMoreStep(1, steps, 4);
    OneMoreStep(1, steps, 5);
    assert steps[..6] == steps;
    assert Run(1, steps).reports == [Report([], 0, EMPTY.(counters := NO_COUNTERS.(droppedSamples := 0)), 0)];
  }

  lemma FirstState(steps: seq<Step>)
    ensures Run(1, steps[..0]) == Initial(1)
  {
  }

  // ----- The collector object -----------------------------------------------------------------

  /** An offer that nothing interrupts. */
  function Offered(s: State, sample: Sample): State {
    if s.closed then s
    else
      var sent := Sent(Next(s, CheckOpen), sample);
      if |s.events| < s.capacity then sent else Next(sent, CountDrop)
  }

  /** A full turn of the consumer loop. */
  function Turned(s: State): State {
    Answered(Dequeued(s))
  }

  /** What a turn amounts to. */
  lemma TurnCases(s: State)
    requires s.held.None?
    ensures !Ready(s) ==> Turned(s) == s
    ensures Ready(s) && s.events[0].Data? ==>
      Turned(s) == s.(events := s.events[1..], snapshot := Record(s.snapshot, s.events[0].sample),
                      pending := s.pending + [s.events[0].sample])
    ensures Ready(s) && !s.events[0].Data? ==>
      Turned(s) == s.(events := s.events[1..], dropped := 0, snapshot := EMPTY, pending := [],
                      reports := s.reports + [Reply(s, s.events[0].mark)],
                      phase := if s.events[0].SnapshotCommand? then Free else Stopped)
  {
    hide Record;
  }

  /** What an answer amounts to. */
  lemma AnswerIs(s: State)
    requires s.held.Some? && !s.held.value.Data?
    ensures var report := Reply(s, s.held.value.mark);
      && report.snapshot == s.snapshot.(counters := s.snapshot.counters.(droppedSamples := s.dropped))
      && Next(s, Answer) == s.(held := None, dropped := 0, snapshot := EMPTY, pending := [],
                               reports := s.reports + [report],
                               phase := if s.held.value.SnapshotCommand? then Free else Stopped)
  {
  }

  /** A step of a producer. */
  predicate Producing(step: Step) {
    step.CheckOpen? || step.Send? || step.CountDrop?
  }

  /** The collector as an object. The steps of its producers are methods of their own;
      taking a snapshot and closing run the consumer until it answers, and producers may
      take steps in between. */
  class Collector {
    const capacity: nat
    var events: seq<Event>
    var dropped: nat
    var closed: bool
    var phase: Phase
    var snapshot: Snapshot
    var held: Option<Event>
    var offering: nat
    var failing: nat
    var answer: Snapshot
    var accepted: seq<Sample> // history, read only for the marks of commands
    ghost var lost: nat
    ghost var pending: seq<Sample>
    ghost var reports: seq<Report>
    ghost var late: nat

    ghost function Contents(): State
      reads this
    {
      State(capacity, events, dropped, closed, phase, snapshot, held, offering, failing,
            accepted, lost, pending, reports, late)
    }

    ghost predicate Valid()
      reads this
    {
      capacity > 0 && Invariant(Contents())
      && (phase == Stopped ==> answer == reports[|reports| - 1].snapshot)
    }

    /** Nobody holds the control lock. */
    ghost predicate Unlocked()
      reads this
    {
      phase in {Free, Stopped}
    }

    constructor (bufferSize: nat)
      requires bufferSize > 0
      ensures Valid() && Contents() == Initial(bufferSize)
    {
      capacity, events, dropped, closed, phase, snapshot := bufferSize, [], 0, false, Free, EMPTY;
      held, offering, failing, answer := None, 0, 0, EMPTY;
      accepted, lost, pending, reports, late := [], 0, [], [], 0;
    }

    /** Fails on a buffer size that is not positive. */
    static method New(bufferSize: int) returns (c: Collector?)
      ensures c == null <==> bufferSize <= 0
      ensures c != null ==> fresh(c) && c.Valid() && c.Contents() == Initial(bufferSize)
    {
      if bufferSize <= 0 {
        return null;
      }
      c := new Collector(bufferSize);
    }

    /** Reads the closed flag; an open collector will be sent to, whatever happens next. */
    method Check() returns (open: bool)
      requires Valid()
      modifies this`offering
      ensures Valid() && Contents() == Next(old(Contents()), CheckOpen) && open == !closed
    {
      hide Invariant;
      StepKeepsInvariant(Contents(), CheckOpen);
      open := !closed;
      if open {
        offering := offering + 1;
      }
    }

    /** Sends without blocking, and even to a collector that has been closed meanwhile. */
    method SendSample(sample: Sample) returns (queued: bool)
      requires Valid() && offering > 0
      modifies this
      ensures Valid() && Contents() == Next(old(Contents()), Send(sample)) && answer == old(answer)
      ensures queued <==> |old(events)| < capacity
    {
      hide Invariant;
      StepKeepsInvariant(Contents(), Send(sample));
      offering := offering - 1;
      queued := |events| < capacity;
      if queued {
        events, accepted := events + [Data(sample)], accepted + [sample];
        late := if phase in {CloseQueued, Stopped} then late + 1 else late;
      } else {
        failing := failing + 1;
      }
    }

    method CountDropped()
      requires Valid() && failing > 0
      modifies this
      ensures Valid() && Contents() == Next(old(Contents()), CountDrop) && answer == old(answer)
    {
      hide Invariant;
      StepKeepsInvariant(Contents(), CountDrop);
      failing, dropped, lost := failing - 1, dropped + 1, lost + 1;
    }

    /** Never blocks: a full queue costs the sample, a closed collector ignores it. */
    method OfferSample(sample: Sample) returns (queued: bool)
      requires Valid()
      modifies this
      ensures Valid() && Contents() == Offered(old(Contents()), sample)
      ensures queued <==> !old(closed) && |old(events)| < capacity
    {
      hide Invariant;
      var open := Check();
      if !open {
        return false;
      }
      queued := SendSample(sample);
      if !queued {
        CountDropped();
      }
    }

    method Offer(result: Result) returns (queued: bool)
      requires Valid()
      modifies this
      ensures Valid() && Contents() == Offered(old(Contents()), Request(result))
      ensures queued <==> !old(closed) && |old(events)| < capacity
    {
      queued := OfferSample(Request(result));
    }

    method OfferUnmetDemand() returns (queued: bool)
      requires Valid()
      modifies this
      ensures Valid() && Contents() == Offered(old(Contents()), UnmetDemand)
      ensures queued <==> !old(closed) && |old(events)| < capacity
    {
      queued := OfferSample(UnmetDemand);
    }

    /** The consumer takes the next event, recording a sample and holding on to a command. */
    method TakeEvent()
      requires Valid()
      modifies this
      ensures Valid() && Contents() == Next(old(Contents()), Dequeue)
      ensures reports == old(reports) && answer == old(answer)
    {
      hide Invariant, Record;
      ConsumerKeepsInvariant(Contents(), Dequeue);
      if events == [] || phase == Stopped || held.Some? {
        return;
      }
      var next := events[0];
      events := events[1..];
      if next.Data? {
        snapshot, pending := Record(snapshot, next.sample), pending + [next.sample];
      } else {
        held := Some(next);
      }
    }

    /** The consumer swaps the drop count, answers the command it holds and starts over. */
    method AnswerHeld()
      requires Valid() && held.Some? && !held.value.Data?
      modifies this
      ensures Valid() && Contents() == Next(old(Contents()), Answer)
      ensures answer == reports[|reports| - 1].snapshot
    {
      hide Invariant;
      ConsumerKeepsInvariant(Contents(), Answer);
      var command, sent := held.value, snapshot.(counters := snapshot.counters.(droppedSamples := dropped));
      ghost var report := Reply(Contents(), command.mark);
      AnswerIs(Contents());
      hide Reply, Next;
      held, answer, dropped, snapshot := None, sent, 0, EMPTY;
      reports, pending := reports + [report], [];
      phase := if command.SnapshotCommand? then Free else Stopped;
    }

    /** One turn of the consumer loop. */
    method RunOnce()
      requires Valid() && held.None?
      modifies this
      ensures Valid() && Contents() == Turned(old(Contents())) && held.None?
      ensures |reports| > |old(reports)| ==> answer == reports[|reports| - 1].snapshot
    {
      hide Invariant, Record;
      TakeEvent();
      if held.Some? {
        AnswerHeld();
      }
    }

    /** What producers and consumer leave alone while a command is on its way. */
    twostate predicate Proceeds(alone: bool)
      reads this
    {
      && old(accepted) <= accepted && |old(reports)| <= |reports| && reports[..|old(reports)|] == old(reports)
      && (alone ==> accepted == old(accepted) && lost == old(lost) && offering == old(offering) && failing == old(failing))
    }

    /** Lets a producer take the next of its steps. */
    method Interleave(meanwhile: seq<Step>) returns (rest: seq<Step>)
      requires Valid() && forall i :: 0 <= i < |meanwhile| ==> Producing(meanwhile[i])
      modifies this
      ensures Valid() && |rest| <= |meanwhile| && forall i :: 0 <= i < |rest| ==> Producing(rest[i])
      ensures meanwhile != [] ==> |rest| < |meanwhile|
      ensures Proceeds(meanwhile == []) && reports == old(reports) && phase == old(phase) && held == old(held)
      ensures old(events) <= events && closed == old(closed) && answer == old(answer)
      ensures meanwhile == [] ==> events == old(events)
    {
      hide Invariant;
      if meanwhile == [] {
        return [];
      }
      rest := meanwhile[1..];
      var step := meanwhile[0];
      if step.CheckOpen? {
        var _ := Check();
      } else if step.Send? {
        if offering > 0 {
          var _ := SendSample(step.sample);
        }
      } else if failing > 0 {
        CountDropped();
      }
    }

    /** Sends a command behind everything queued, waiting for room first. */
    method SendCommand(closing: bool, meanwhile: seq<Step>) returns (rest: seq<Step>)
      requires Valid() && held.None? && phase == if closing then CloseBlocked else SnapshotBlocked
      requires forall i :: 0 <= i < |meanwhile| ==> Producing(meanwhile[i])
      modifies this
      ensures Valid() && held.None? && phase == if closing then CloseQueued else SnapshotQueued
      ensures forall i :: 0 <= i < |rest| ==> Producing(rest[i])
      ensures events != [] && !events[|events| - 1].Data? && events[|events| - 1].mark == |accepted|
      ensures Proceeds(meanwhile == []) && reports == old(reports) && (meanwhile == [] ==> rest == [])
    {
      hide Conserved, BarriersHold, Turned;
      rest := meanwhile;
      while |events| == capacity
        invariant Valid() && held.None? && phase == old(phase) && reports == old(reports)
        invariant forall i :: 0 <= i < |rest| ==> Producing(rest[i])
        invariant Proceeds(meanwhile == []) && (meanwhile == [] ==> rest == [])
        decreases |rest|, |events|
      {
        rest := Interleave(rest);
        TurnCases(Contents());
        RunOnce();
      }
      CommandKeepsInvariant(Contents(), if closing then QueueClose else QueueSnapshot);
      var mark := |accepted|;
      events := events + [if closing then CloseCommand(mark) else SnapshotCommand(mark)];
      phase := if closing then CloseQueued else SnapshotQueued;
    }

    /** Runs the consumer until the command that was queued last is answered. */
    method Await(meanwhile: seq<Step>)
      requires Valid() && held.None? && phase in {SnapshotQueued, CloseQueued}
      requires forall i :: 0 <= i < |meanwhile| ==> Producing(meanwhile[i])
      requires events != [] && !events[|events| - 1].Data?
      modifies this
      ensures Valid() && held.None? && phase == if old(phase) == CloseQueued then Stopped else Free
      ensures Proceeds(meanwhile == []) && |reports| == |old(reports)| + 1
      ensures reports[|reports| - 1].mark == old(events[|events| - 1].mark)
      ensures answer == reports[|reports| - 1].snapshot
      ensures meanwhile == [] ==> dropped == 0 && pending == [] && events == []
    {
      hide Conserved, BarriersHold, Turned;
      var rest := meanwhile;
      ghost var ahead := |events| - 1;
      while events[0].Data?
        invariant Valid() && held.None? && phase == old(phase) && reports == old(reports)
        invariant forall i :: 0 <= i < |rest| ==> Producing(rest[i])
        invariant 0 <= ahead < |events| && events[ahead] == old(events[|events| - 1])
        invariant Proceeds(meanwhile == []) && (meanwhile == [] ==> rest == [] && ahead == |events| - 1)
        decreases ahead
      {
        rest := Interleave(rest);
        TurnCases(Contents());
        RunOnce();
        ahead := ahead - 1;
      }
      TurnCases(Contents());
      RunOnce();
    }

    /** Returns the interval completed by every sample accepted before its command was
        queued, whatever producers do meanwhile; a closed collector returns an empty one. */
    method SnapshotAndReset(meanwhile: seq<Step>) returns (interval: Snapshot)
      requires Valid() && Unlocked()
      requires forall i :: 0 <= i < |meanwhile| ==> Producing(meanwhile[i])
      modifies this
      ensures Valid() && Unlocked() && Proceeds(meanwhile == [])
      ensures old(closed) ==> interval == EMPTY && Contents() == old(Contents())
      ensures !old(closed) ==>
        && phase == Free && |reports| == |old(reports)| + 1
        && var r := reports[|reports| - 1];
          && interval == r.snapshot && ReportFaithful(r)
          && |old(accepted)| <= r.mark <= |accepted| && Reported(reports) == accepted[..r.mark]
      ensures !old(closed) && meanwhile == [] ==> Covers(reports[|reports| - 1], old(Contents()))
    {
      if closed {
        return EMPTY;
      }
      CommandKeepsInvariant(Contents(), BeginSnapshot);
      UnlockedHoldsNothing(Contents());
      hide Invariant;
      phase := SnapshotBlocked;
      var rest := SendCommand(false, meanwhile);
      Await(rest);
      InvariantParts(Contents());
      if meanwhile == [] {
        InvariantParts(old(Contents()));
        LastReportCovers(old(Contents()), Contents());
      }
      interval := answer;
    }

    /** Drains what was accepted before shutdown; closing again returns the same metrics. */
    method Close() returns (final: Snapshot)
      requires Valid() && Unlocked()
      modifies this
      ensures Valid() && phase == Stopped && closed && Proceeds(true)
      ensures final == reports[|reports| - 1].snapshot
      ensures old(closed) ==> Contents() == old(Contents())
      ensures !old(closed) ==>
        |reports| == |old(reports)| + 1 && Covers(reports[|reports| - 1], old(Contents()))
    {
      if !closed {
        CommandKeepsInvariant(Contents(), BeginClose);
        UnlockedHoldsNothing(Contents());
        hide Invariant;
        phase, closed := CloseBlocked, true;
        var rest := SendCommand(true, []);
        Await(rest);
        InvariantParts(old(Contents()));
        InvariantParts(Contents());
        LastReportCovers(old(Contents()), Contents());
      }
      final := answer;
    }
  }

  lemma UnlockedHoldsNothing(s: State)
    requires OneCommand(s) && s.phase in {Free, Stopped}
    ensures s.held.None?
  {
  }

  lemma InvariantParts(s: State)
    requires Invariant(s)
    ensures Conserved(s) && OneCommand(s)
    ensures forall i :: 0 <= i < |s.reports| ==> ReportFaithful(s.reports[i])
    ensures s.reports != [] ==>
      var mark := s.reports[|s.reports| - 1].mark;
      mark <= |s.accepted| && Reported(s.reports) == s.accepted[..mark]
  {
    hide Recorded, ReportFaithful;
    if s.reports != [] {
      assert s.reports[..|s.reports|] == s.reports;
      assert Reported(s.reports) <= s.accepted;
    }
  }

  /** The report holds exactly the samples and drops not reported in the given state. */
  ghost predicate Covers(r: Report, s: State) {
    && r.samples == s.pending + Samples(s.events)
    && r.dropped == s.dropped
    && r.snapshot.counters.droppedSamples == s.dropped
    && ReportFaithful(r)
  }

  lemma Cancel<T>(a: seq<T>, b: seq<T>, c: seq<T>)
    requires a + b == a + c
    ensures b == c
  {
    assert b == (a + b)[|a|..];
  }

  /** Between two states with nothing accepted or lost, one new report that leaves
      nothing unreported covers all that was outstanding. */
  lemma LastReportCovers(s: State, t: State)
    requires Conserved(s) && Conserved(t)
    requires t.accepted == s.accepted && t.lost == s.lost && t.dropped == 0
    requires |t.reports| == |s.reports| + 1 && t.reports[..|s.reports|] == s.reports
    requires t.pending == [] && t.events == []
    ensures Covers(t.reports[|s.reports|], s)
  {
    hide Recorded;
    var r := t.reports[|s.reports|];
    var covered, outstanding := Reported(s.reports), s.pending + Samples(s.events);
    assert Reported(t.reports) == covered + r.samples;
    assert covered + outstanding == covered + s.pending + Samples(s.events);
    assert covered + r.samples == t.accepted + [] + [];
    Cancel(covered, r.samples, outstanding);
  }
}
