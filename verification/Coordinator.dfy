/** The coordinator: one complete assignment revision per membership change. */
module Coordination {
  import opened Wire
  import opened SortedStrings
  import opened LoadSplitting
  import opened Assignments

  datatype Config = Config(target: HttpTarget, load: Load, minWorkers: int)

  predicate ValidMethod(m: string) {
    m in {"GET", "HEAD", "POST", "PUT", "PATCH", "DELETE", "OPTIONS"}
  }

  /** A configuration as the configuration check leaves it. */
  predicate ValidConfig(config: Config) {
    && Trim(config.target.url) != ""
    && ValidMethod(config.target.method_)
    && ValidLoad(config.load)
    && config.minWorkers > 0
  }

  datatype RunWindow = RunWindow(startsAt: Time, deadline: Time)

  /** Run timing and revision; `started` lists the windows announced so far. */
  datatype Coordinator = Coordinator(
    config: Config,
    runId: string,
    leadTime: Duration,
    revision: nat,
    startsAt: Time,
    deadline: Time,
    started: seq<RunWindow>)

  /** Refuses a blank run ID and a lead time that is not positive; trims the run ID. */
  function NewCoordinator(config: Config, runId: string, leadTime: Duration): Option<Coordinator> {
    if Trim(runId) == "" || leadTime <= 0 || config.minWorkers <= 0 || config.load.duration <= 0 then None
    else Some(Coordinator(config, Trim(runId), leadTime, 0, 0, 0, []))
  }

  function AssignmentFor(c: Coordinator, slice: LoadSlice): LoadAssignment {
    LoadAssignment(c.runId, c.revision, Some(c.config.target), Some(slice), Some(c.startsAt), Some(c.deadline))
  }

  function AssignmentsFor(c: Coordinator, slices: map<string, LoadSlice>): map<string, LoadAssignment> {
    map w | w in slices :: AssignmentFor(c, slices[w])
  }

  datatype Reconciliation =
    | TooFewWorkers
    | RunOver
    | SplitRefused(error: SplitError)
    | Issued(assignments: map<string, LoadAssignment>)

  /** The coordinator once its run window is fixed. */
  function WithWindow(c: Coordinator, now: Time): Coordinator {
    if c.revision != 0 then c
    else
      var startsAt := now + c.leadTime;
      var deadline := startsAt + c.config.load.duration;
      c.(startsAt := startsAt, deadline := deadline, started := c.started + [RunWindow(startsAt, deadline)])
  }

  /** One reconciliation against the sessions connected now. */
  ghost function Reconcile(c: Coordinator, ids: seq<string>, now: Time): (Coordinator, Reconciliation) {
    if |ids| < c.config.minWorkers then (c, TooFewWorkers)
    else if c.revision != 0 && now >= c.deadline then (c, RunOver)
    else
      var w := WithWindow(c, now);
      var split := Split(c.config.load, ids);
      if split.Failed? then (w, SplitRefused(split.error))
      else
        var next := w.(revision := c.revision + 1);
        (next, Issued(AssignmentsFor(next, split.slices)))
  }

  /** Timing and configuration agree with the revisions issued so far. */
  ghost predicate Consistent(c: Coordinator) {
    && ValidConfig(c.config)
    && Trim(c.runId) != ""
    && c.leadTime > 0
    && (c.revision == 0 ==> c.started == [])
    && (c.revision > 0 ==> c.started == [RunWindow(c.startsAt, c.deadline)])
    && (c.revision > 0 ==> c.deadline == c.startsAt + c.config.load.duration)
  }

  /** A coordinator is built exactly for a run ID that is not blank, a positive lead time and
      duration, and at least one worker; its run ID has no whitespace at its ends. */
  lemma NewIsConsistent(config: Config, runId: string, leadTime: Duration)
    ensures var c := NewCoordinator(config, runId, leadTime);
      && (c.Some? <==> !AllSpace(runId) && leadTime > 0 && config.minWorkers > 0 && config.load.duration > 0)
      && (c.Some? ==>
            && (exists before, after :: runId == before + c.value.runId + after && AllSpace(before) && AllSpace(after))
            && c.value.runId != "" && !IsSpace(c.value.runId[0]) && !IsSpace(c.value.runId[|c.value.runId| - 1])
            && c.value.config == config && c.value.leadTime == leadTime && c.value.revision == 0
            && (ValidConfig(config) ==> Consistent(c.value)))
  {
    TrimIdempotent(runId);
    TrimIsExact(runId);
    hide Trim, AllSpace, ValidConfig;
  }

  lemma AssignmentIsWellFormed(c: Coordinator, slice: LoadSlice)
    requires ValidConfig(c.config) && Trim(c.runId) != "" && c.revision > 0
    requires 0 <= c.startsAt < c.deadline <= MAX_TIMESTAMP
    requires SliceProblem(slice) == None
    ensures Problem(AssignmentFor(c, slice)) == None
  {
    hide Trim, SliceProblem;
    MethodNotBlank(c.config.target.method_);
  }

  /** The whole effect of a reconciliation of usable sessions under a valid configuration:
      it issues exactly when there are enough workers and the run is not over, the split
      never fails, the window is fixed once, and every assignment is well formed. */
  lemma ReconcileIssues(c: Coordinator, ids: seq<string>, now: Time)
    requires Consistent(c) && UsableIds(ids)
    ensures var (next, outcome) := Reconcile(c, ids, now);
      && Consistent(next)
      && (outcome.Issued? <==> |ids| >= c.config.minWorkers && (c.revision == 0 || now < c.deadline))
      && !outcome.SplitRefused?
      && (!outcome.Issued? ==> next == c)
      && next.config == c.config && next.runId == c.runId
      && (c.revision > 0 ==> next.startsAt == c.startsAt && next.deadline == c.deadline)
      && (outcome.Issued? ==>
            && next.revision == c.revision + 1
            && (forall w :: w in outcome.assignments <==> w in ids)
            && (forall w :: w in outcome.assignments ==>
                  IssuedBy(next, outcome.assignments[w])
                  && (0 <= next.startsAt && next.deadline <= MAX_TIMESTAMP ==>
                        Problem(outcome.assignments[w]) == None)))
  {
    hide Problem, Split, SliceProblem, Trim;
    var (next, outcome) := Reconcile(c, ids, now);
    if outcome.Issued? || outcome.SplitRefused? {
      SplitSucceeds(c.config.load, ids);
      SliceOfEach(c.config.load, ids);
      var slices := Split(c.config.load, ids).slices;
      if 0 <= next.startsAt && next.deadline <= MAX_TIMESTAMP {
        forall w | w in slices
          ensures Problem(AssignmentFor(next, slices[w])) == None
        {
          AssignmentIsWellFormed(next, slices[w]);
        }
      }
    }
  }

  /** Identity, target, load shape and window of every assignment in a revision. */
  ghost predicate IssuedBy(c: Coordinator, a: LoadAssignment) {
    && a.runId == c.runId
    && a.revision == c.revision
    && a.target == Some(c.config.target)
    && a.load.Some?
    && a.load.value.model == c.config.load.model
    && a.load.value.rampUp == Some(c.config.load.rampUp)
    && a.startsAt == Some(c.startsAt)
    && a.deadline == Some(c.deadline)
  }

  lemma MethodNotBlank(m: string)
    requires ValidMethod(m)
    ensures Trim(m) != ""
  {
    assert !IsSpace(m[0]) && !IsSpace(m[|m| - 1]);
  }

  lemma SliceOfEach(load: Load, ids: seq<string>)
    requires ValidLoad(load) && ids != [] && UsableIds(ids)
    ensures Split(load, ids).Slices?
    ensures forall w :: w in Split(load, ids).slices ==>
      var slice := Split(load, ids).slices[w];
      SliceProblem(slice) == None && slice.model == load.model && slice.rampUp == Some(load.rampUp)
  {
    SplitSucceeds(load, ids);
    SortedUsable(ids);
    var sorted := Sort(ids);
    forall w | w in Split(load, ids).slices
      ensures var slice := Split(load, ids).slices[w];
        SliceProblem(slice) == None && slice.model == load.model && slice.rampUp == Some(load.rampUp)
    {
      var i :| 0 <= i < |sorted| && sorted[i] == w;
      SliceIsWellFormed(load, |ids|, i);
    }
  }

  lemma SliceIsWellFormed(load: Load, workers: nat, i: nat)
    requires ValidLoad(load) && i < workers
    ensures SliceProblem(SliceAt(load, workers, i)) == None
  {
    SplitIsFair(load, workers);
    var slice, active := SliceAt(load, workers, i), ActiveWorkers(load, workers);
    assert MAX_I64 <= MAX_PROTO_DURATION;
    if load.model.ConstantRate? && i < active {
      assert IsActive(Some(slice));
    }
  }

  /** The load of each issued assignment, in the order of the worker IDs. */
  ghost function Loads(assignments: map<string, LoadAssignment>, ids: seq<string>): (loads: seq<LoadSlice>)
    requires forall i :: 0 <= i < |Sort(ids)| ==>
      Sort(ids)[i] in assignments && assignments[Sort(ids)[i]].load.Some?
  {
    seq(|Sort(ids)|, i requires 0 <= i < |Sort(ids)| => assignments[Sort(ids)[i]].load.value)
  }

  /** What one revision hands out is a fair division of the configured load. */
  lemma RevisionIsFair(c: Coordinator, ids: seq<string>, now: Time)
    requires Consistent(c) && UsableIds(ids) && Reconcile(c, ids, now).1.Issued?
    ensures var assignments := Reconcile(c, ids, now).1.assignments;
      && (forall i :: 0 <= i < |Sort(ids)| ==>
            Sort(ids)[i] in assignments && assignments[Sort(ids)[i]].load.Some?)
      && FairDivision(c.config.load, Loads(assignments, ids))
  {
    hide Split, FairDivision, Sort, UsableIds;
    SplitIsFairDivision(c.config.load, ids);
    var assignments := Reconcile(c, ids, now).1.assignments;
    assert Loads(assignments, ids) == Ranked(Split(c.config.load, ids).slices, ids);
  }

  // ----- Whole runs -------------------------------------------------------------------

  /** One wakeup of the coordinator: the sessions it reads and the time it reads. */
  datatype Wakeup = Wakeup(ids: seq<string>, now: Time)

  ghost function After(c: Coordinator, wakeups: seq<Wakeup>): Coordinator {
    if wakeups == [] then c
    else
      var last := wakeups[|wakeups| - 1];
      Reconcile(After(c, wakeups[..|wakeups| - 1]), last.ids, last.now).0
  }

  /** What the wakeup at this place issues. */
  ghost function OutcomeAt(c: Coordinator, wakeups: seq<Wakeup>, i: nat): Reconciliation
    requires i < |wakeups|
  {
    Reconcile(After(c, wakeups[..i]), wakeups[i].ids, wakeups[i].now).1
  }

  lemma {:induction false} AfterIsConsistent(c: Coordinator, wakeups: seq<Wakeup>)
    requires Consistent(c) && forall i :: 0 <= i < |wakeups| ==> UsableIds(wakeups[i].ids)
    ensures var after := After(c, wakeups);
      && Consistent(after) && after.revision >= c.revision
      && after.config == c.config && after.runId == c.runId
      && (c.revision > 0 ==> after.startsAt == c.startsAt && after.deadline == c.deadline)
    decreases |wakeups|
  {
    if wakeups == [] {
    } else {
      var n := |wakeups| - 1;
      AfterIsConsistent(c, wakeups[..n]);
      ReconcileIssues(After(c, wakeups[..n]), wakeups[n].ids, wakeups[n].now);
    }
  }

  lemma {:induction false} AfterSplit(c: Coordinator, wakeups: seq<Wakeup>, i: nat)
    requires i <= |wakeups|
    ensures After(c, wakeups) == After(After(c, wakeups[..i]), wakeups[i..])
    decreases |wakeups|
  {
    hide Reconcile;
    if i == |wakeups| {
      assert wakeups[..i] == wakeups;
    } else {
      var n := |wakeups| - 1;
      AfterSplit(c, wakeups[..n], i);
      assert wakeups[..n][..i] == wakeups[..i];
      assert wakeups[i..][..n - i] == wakeups[..n][i..];
    }
  }

  /** One wakeup that issues: what the worker receives, and the coordinator afterwards. */
  lemma IssueAt(c: Coordinator, wakeups: seq<Wakeup>, i: nat, w: string)
    requires Consistent(c) && forall k :: 0 <= k < |wakeups| ==> UsableIds(wakeups[k].ids)
    requires i < |wakeups|
    requires OutcomeAt(c, wakeups, i).Issued? && w in OutcomeAt(c, wakeups, i).assignments
    ensures var next, a := After(c, wakeups[..i + 1]), OutcomeAt(c, wakeups, i).assignments[w];
      && Consistent(next) && next.config == c.config && next.runId == c.runId
      && next.revision == After(c, wakeups[..i]).revision + 1
      && IssuedBy(next, a)
      && (0 <= next.startsAt && next.deadline <= MAX_TIMESTAMP ==> Problem(a) == None)
  {
    hide Reconcile, Problem;
    AfterIsConsistent(c, wakeups[..i]);
    ReconcileIssues(After(c, wakeups[..i]), wakeups[i].ids, wakeups[i].now);
    assert wakeups[..i + 1][..i] == wakeups[..i];
  }

  /** From any point on, revisions only grow and an announced window stays. */
  lemma LaterKeepsWindow(c: Coordinator, wakeups: seq<Wakeup>, i: nat, j: nat)
    requires Consistent(c) && forall k :: 0 <= k < |wakeups| ==> UsableIds(wakeups[k].ids)
    requires i <= j <= |wakeups| && After(c, wakeups[..i]).revision > 0
    ensures var earlier, later := After(c, wakeups[..i]), After(c, wakeups[..j]);
      && earlier.revision <= later.revision
      && earlier.startsAt == later.startsAt && earlier.deadline == later.deadline
  {
    hide Reconcile;
    AfterIsConsistent(c, wakeups[..i]);
    AfterSplit(c, wakeups[..j], i);
    assert wakeups[..j][..i] == wakeups[..i];
    AfterIsConsistent(After(c, wakeups[..i]), wakeups[..j][i..]);
  }

  /** Every worker's stream of assignments is one the worker accepts: the run window is
      announced once and never moves, revisions increase, and each assignment is a valid
      replacement of any earlier one of the same run. */
  lemma StreamsAreAccepted(c: Coordinator, wakeups: seq<Wakeup>, i: nat, j: nat, w: string)
    requires Consistent(c) && forall k :: 0 <= k < |wakeups| ==> UsableIds(wakeups[k].ids)
    requires i < j < |wakeups|
    requires OutcomeAt(c, wakeups, i).Issued? && w in OutcomeAt(c, wakeups, i).assignments
    requires OutcomeAt(c, wakeups, j).Issued? && w in OutcomeAt(c, wakeups, j).assignments
    requires 0 <= After(c, wakeups).startsAt && After(c, wakeups).deadline <= MAX_TIMESTAMP
    ensures var first, second := OutcomeAt(c, wakeups, i).assignments[w], OutcomeAt(c, wakeups, j).assignments[w];
      && first.revision < second.revision
      && Transition(None, first) == Replace
      && Transition(Some(first), second) == Replace
    ensures |After(c, wakeups).started| == 1
  {
    hide Reconcile, Problem, OutcomeAt, After;
    IssueAt(c, wakeups, i, w);
    IssueAt(c, wakeups, j, w);
    LaterKeepsWindow(c, wakeups, i + 1, j);
    LaterKeepsWindow(c, wakeups, i + 1, j + 1);
    LaterKeepsWindow(c, wakeups, j + 1, |wakeups|);
    assert wakeups[..|wakeups|] == wakeups;
    AfterIsConsistent(c, wakeups);
  }

  /** Whatever wakeups come and go, each revision divides the configured load fairly over
      exactly the sessions of its wakeup. */
  lemma EveryRevisionIsFair(c: Coordinator, wakeups: seq<Wakeup>, i: nat)
    requires Consistent(c) && forall k :: 0 <= k < |wakeups| ==> UsableIds(wakeups[k].ids)
    requires i < |wakeups| && OutcomeAt(c, wakeups, i).Issued?
    ensures var assignments, ids := OutcomeAt(c, wakeups, i).assignments, wakeups[i].ids;
      && (forall w :: w in assignments <==> w in ids)
      && (forall w :: w in assignments ==> IssuedBy(After(c, wakeups[..i + 1]), assignments[w]))
      && (forall k :: 0 <= k < |Sort(ids)| ==>
            Sort(ids)[k] in assignments && assignments[Sort(ids)[k]].load.Some?)
      && FairDivision(c.config.load, Loads(assignments, ids))
  {
    hide Reconcile, FairDivision, Sort, UsableIds, IssuedBy, Consistent, Problem;
    AfterIsConsistent(c, wakeups[..i]);
    ReconcileIssues(After(c, wakeups[..i]), wakeups[i].ids, wakeups[i].now);
    RevisionIsFair(After(c, wakeups[..i]), wakeups[i].ids, wakeups[i].now);
    assert wakeups[..i + 1][..i] == wakeups[..i];
  }

  // ----- The coordinator object -----------------------------------------------------------

  /** Owns revision and run timing; only its own goroutine touches them. */
  class AssignmentCoordinator {
    const config: Config
    const runId: string
    const leadTime: Duration
    var revision: nat
    var startsAt: Time
    var deadline: Time
    var started: seq<RunWindow>

    ghost function Contents(): Coordinator
      reads this
    {
      Coordinator(config, runId, leadTime, revision, startsAt, deadline, started)
    }

    constructor (config: Config, runId: string, leadTime: Duration)
      requires NewCoordinator(config, runId, leadTime).Some?
      ensures Contents() == NewCoordinator(config, runId, leadTime).value
    {
      this.config, this.runId, this.leadTime := config, Trim(runId), leadTime;
      revision, startsAt, deadline, started := 0, 0, 0, [];
    }

    /** Creates one complete revision from the given sessions. */
    method ReconcileSessions(ids: seq<string>, now: Time) returns (outcome: Reconciliation)
      modifies this
      ensures (Contents(), outcome) == Reconcile(old(Contents()), ids, now)
    {
      if |ids| < config.minWorkers {
        return TooFewWorkers;
      }
      if revision == 0 {
        startsAt := now + leadTime;
        deadline := startsAt + config.load.duration;
        started := started + [RunWindow(startsAt, deadline)];
      } else if now >= deadline {
        return RunOver;
      }
      var split := SplitLoad(config.load, ids);
      if split.Failed? {
        return SplitRefused(split.error);
      }
      revision := revision + 1;
      var assignments: map<string, LoadAssignment> := map[];
      var remaining := split.slices.Keys;
      while remaining != {}
        invariant remaining <= split.slices.Keys
        invariant assignments.Keys == split.slices.Keys - remaining
        invariant forall w :: w in assignments ==> assignments[w] == AssignmentFor(Contents(), split.slices[w])
        decreases remaining
      {
        var w :| w in remaining;
        var slice := split.slices[w];
        assignments := assignments[w :=
          LoadAssignment(runId, revision, Some(config.target), Some(slice), Some(startsAt), Some(deadline))];
        remaining := remaining - {w};
      }
      assert assignments == AssignmentsFor(Contents(), split.slices);
      return Issued(assignments);
    }
  }
}
