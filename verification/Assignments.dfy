/** What a worker demands of an assignment, alone and as a replacement of the current one. */
module Assignments {
  import opened Wire

  datatype AssignmentError =
    | RunIdRequired
    | RevisionRequired
    | TargetRequired
    | UrlRequired
    | MethodRequired
    | LoadRequired
    | RampUpRequired
    | RampUpInvalid
    | RampUpNegative
    | RateFieldsOnUsers
    | UsersOnRate
    | IncompleteRate
    | ModelRequired
    | StartRequired
    | StartInvalid
    | DeadlineRequired
    | DeadlineInvalid
    | EmptyWindow

  const MAX_PROTO_DURATION: int := 315_576_000_000 * SECOND + SECOND - 1

  /** The range a protobuf duration may take. */
  predicate ValidDuration(d: int) {
    -MAX_PROTO_DURATION <= d <= MAX_PROTO_DURATION
  }

  /** The first thing wrong with a load slice. */
  function SliceProblem(load: LoadSlice): Option<AssignmentError> {
    if load.rampUp.None? then Some(RampUpRequired)
    else if !ValidDuration(load.rampUp.value) then Some(RampUpInvalid)
    else if load.rampUp.value < 0 then Some(RampUpNegative)
    else match load.model
      case ConstantVUs =>
        if load.rate != 0 || load.maxInFlight != 0 then Some(RateFieldsOnUsers) else None
      case ConstantRate =>
        if load.virtualUsers != 0 then Some(UsersOnRate)
        else if (load.rate == 0) != (load.maxInFlight == 0) then Some(IncompleteRate) else None
      case Unspecified => Some(ModelRequired)
  }

  /** The first thing wrong with a run window. */
  function WindowProblem(startsAt: Option<Time>, deadline: Option<Time>): Option<AssignmentError> {
    if startsAt.None? then Some(StartRequired)
    else if !ValidTimestamp(startsAt.value) then Some(StartInvalid)
    else if deadline.None? then Some(DeadlineRequired)
    else if !ValidTimestamp(deadline.value) then Some(DeadlineInvalid)
    else if deadline.value <= startsAt.value then Some(EmptyWindow)
    else None
  }

  /** The first thing wrong with an assignment, if anything is. */
  function Problem(a: LoadAssignment): Option<AssignmentError> {
    if Trim(a.runId) == "" then Some(RunIdRequired)
    else if a.revision == 0 then Some(RevisionRequired)
    else if a.target.None? then Some(TargetRequired)
    else if Trim(a.target.value.url) == "" then Some(UrlRequired)
    else if Trim(a.target.value.method_) == "" then Some(MethodRequired)
    else if a.load.None? then Some(LoadRequired)
    else if SliceProblem(a.load.value).Some? then SliceProblem(a.load.value)
    else WindowProblem(a.startsAt, a.deadline)
  }

  /** A complete assignment: identity, target, a load that is whole or idle, and a window
      that is not empty. */
  ghost predicate WellFormed(a: LoadAssignment) {
    && !AllSpace(a.runId) && a.revision > 0
    && a.target.Some? && !AllSpace(a.target.value.url) && !AllSpace(a.target.value.method_)
    && a.load.Some? && WholeOrIdle(a.load.value)
    && a.load.value.rampUp.Some? && 0 <= a.load.value.rampUp.value < 315_576_000_001 * 1_000_000_000
    && a.startsAt.Some? && a.deadline.Some?
    && 0 <= a.startsAt.value < a.deadline.value < 315_537_897_600 * 1_000_000_000
  }

  const NO_TARGET := HttpTarget("", "", map[], "")
  const NO_SLICE := LoadSlice(Unspecified, 0, 0, 0, None)

  /** What an error says of an assignment. */
  ghost predicate Lacks(a: LoadAssignment, error: AssignmentError) {
    var target, load := if a.target.Some? then a.target.value else NO_TARGET, if a.load.Some? then a.load.value else NO_SLICE;
    match error
    case RunIdRequired => AllSpace(a.runId)
    case RevisionRequired => a.revision == 0
    case TargetRequired => a.target.None?
    case UrlRequired => a.target.Some? && AllSpace(target.url)
    case MethodRequired => a.target.Some? && AllSpace(target.method_)
    case LoadRequired => a.load.None?
    case RampUpRequired => a.load.Some? && load.rampUp.None?
    case RampUpInvalid =>
      load.rampUp.Some? && !(-315_576_000_001 * SECOND < load.rampUp.value < 315_576_000_001 * SECOND)
    case RampUpNegative => load.rampUp.Some? && load.rampUp.value < 0
    case RateFieldsOnUsers => load.model.ConstantVUs? && (load.rate > 0 || load.maxInFlight > 0)
    case UsersOnRate => load.model.ConstantRate? && load.virtualUsers > 0
    case IncompleteRate =>
      load.model.ConstantRate? && (load.rate > 0 || load.maxInFlight > 0) && (load.rate == 0 || load.maxInFlight == 0)
    case ModelRequired => a.load.Some? && load.model.Unspecified?
    case StartRequired => a.startsAt.None?
    case StartInvalid => a.startsAt.Some? && !(0 <= AsTime(a.startsAt) < 315_537_897_600 * SECOND)
    case DeadlineRequired => a.deadline.None?
    case DeadlineInvalid => a.deadline.Some? && !(0 <= AsTime(a.deadline) < 315_537_897_600 * SECOND)
    case EmptyWindow => a.startsAt.Some? && a.deadline.Some? && AsTime(a.deadline) <= AsTime(a.startsAt)
  }

  /** The checks pass exactly for a complete assignment, and any error is true of it. */
  lemma AssignmentCheckedExactly(a: LoadAssignment)
    ensures Problem(a) == None <==> WellFormed(a)
    ensures Problem(a).Some? ==> Lacks(a, Problem(a).value)
  {
    TrimIsExact(a.runId);
    if a.target.Some? {
      TrimIsExact(a.target.value.url);
      TrimIsExact(a.target.value.method_);
    }
    if a.load.Some? {
      SliceCheckedExactly(a);
    }
    WindowCheckedExactly(a);
    hide Trim, AllSpace, SliceProblem, WindowProblem, WholeOrIdle;
  }

  lemma SliceCheckedExactly(a: LoadAssignment)
    requires a.load.Some?
    ensures SliceProblem(a.load.value).None? <==>
      && WholeOrIdle(a.load.value) && a.load.value.rampUp.Some?
      && 0 <= a.load.value.rampUp.value < 315_576_000_001 * 1_000_000_000
    ensures SliceProblem(a.load.value).Some? ==> Lacks(a, SliceProblem(a.load.value).value)
  {
    hide AllSpace;
  }

  lemma WindowCheckedExactly(a: LoadAssignment)
    ensures WindowProblem(a.startsAt, a.deadline).None? <==>
      a.startsAt.Some? && a.deadline.Some? && 0 <= a.startsAt.value < a.deadline.value < 315_537_897_600 * 1_000_000_000
    ensures WindowProblem(a.startsAt, a.deadline).Some? ==> Lacks(a, WindowProblem(a.startsAt, a.deadline).value)
  {
    hide AllSpace;
  }

  datatype RefusalReason =
    | InvalidAssignment(error: AssignmentError)
    | OtherRun
    | OlderRevision
    | ConflictingRevision
    | WindowChanged
    | TargetChanged

  datatype TransitionResult = Replace | Duplicate | Refuse(reason: RefusalReason)

  /** Whether the next assignment may take over from the current one. */
  function Transition(current: Option<LoadAssignment>, next: LoadAssignment): TransitionResult {
    if Problem(next).Some? then Refuse(InvalidAssignment(Problem(next).value))
    else if current.None? then Replace
    else
      var c := current.value;
      if next.runId != c.runId then Refuse(OtherRun)
      else if next.revision < c.revision then Refuse(OlderRevision)
      else if next.revision == c.revision then
        if next == c then Duplicate else Refuse(ConflictingRevision)
      else if AsTime(next.startsAt) != AsTime(c.startsAt) || AsTime(next.deadline) != AsTime(c.deadline)
      then Refuse(WindowChanged)
      else if next.target != c.target then Refuse(TargetChanged)
      else Replace
  }

  /** Newer than the other assignment, for the same run, window and target. */
  predicate Supersedes(next: LoadAssignment, a: LoadAssignment) {
    && next.runId == a.runId && next.revision > a.revision
    && next.startsAt == a.startsAt && next.deadline == a.deadline && next.target == a.target
  }

  /** Complete assignments, each superseding all the earlier ones. */
  ghost predicate Chain(taken: seq<LoadAssignment>) {
    && (forall i :: 0 <= i < |taken| ==> WellFormed(taken[i]))
    && (forall i, j :: 0 <= i < j < |taken| ==> Supersedes(taken[j], taken[i]))
  }

  /** What a refusal says of the next assignment beside the current one. */
  ghost predicate Conflicts(c: LoadAssignment, next: LoadAssignment, reason: RefusalReason) {
    match reason
    case InvalidAssignment(error) => Lacks(next, error)
    case OtherRun => next.runId != c.runId
    case OlderRevision => next.revision < c.revision
    case ConflictingRevision => next.revision == c.revision && next != c
    case WindowChanged => next.startsAt != c.startsAt || next.deadline != c.deadline
    case TargetChanged => next.target != c.target
  }

  /** A refusal gives a true reason. */
  lemma RefusalSaysWhy(current: Option<LoadAssignment>, next: LoadAssignment)
    requires Transition(current, next).Refuse?
    ensures var reason := Transition(current, next).reason;
      if current.Some? then Conflicts(current.value, next, reason)
      else reason.InvalidAssignment? && Lacks(next, reason.error)
  {
    hide Problem, Lacks, WellFormed;
    AssignmentCheckedExactly(next);
  }

  function Latest(taken: seq<LoadAssignment>): Option<LoadAssignment> {
    if taken == [] then None else Some(taken[|taken| - 1])
  }

  /** Comparing with the current assignment alone decides exactly whether the next one is
      complete and supersedes every one taken before, or is the current one once more. */
  lemma TransitionExactly(taken: seq<LoadAssignment>, next: LoadAssignment)
    requires Chain(taken)
    ensures var transition := Transition(Latest(taken), next);
      && (transition == Replace <==> Chain(taken + [next]))
      && (transition == Duplicate <==> taken != [] && next == taken[|taken| - 1])
  {
    hide Problem, WellFormed;
    AssignmentCheckedExactly(next);
    var more := taken + [next];
    if Transition(Latest(taken), next) == Replace {
      forall i | 0 <= i < |taken| ensures Supersedes(next, taken[i]) {
        WindowIsGiven(next);
        WindowIsGiven(taken[|taken| - 1]);
        assert i < |taken| - 1 ==> Supersedes(taken[|taken| - 1], taken[i]);
      }
    }
    if Chain(more) {
      assert more[|taken|] == next && WellFormed(next);
      assert taken != [] ==> more[|taken| - 1] == taken[|taken| - 1] && Supersedes(next, taken[|taken| - 1]);
    }
  }

  lemma WindowIsGiven(a: LoadAssignment)
    requires WellFormed(a)
    ensures a.startsAt.Some? && a.deadline.Some?
  {
  }
}
