/** A whole run: one coordinator and aggregator, any number of workers, and FIFO
    queues between them, over every interleaving of their steps. */
module FleetRuns {
  import opened Wire
  import opened Snapshots
  import opened LoadSplitting
  import opened Assignments
  import Coordination
  import opened Aggregation
  import opened AggregatorHistory
  import opened Coverage
  import opened RunControl
  import opened Deltas
  import opened FleetNode

  /** A revision the coordinator has made from the sessions and the clock it read, and has
      not recorded yet. */
  datatype Reconciled = Reconciled(coord: Coordination.Coordinator, assignments: map<string, LoadAssignment>)

  /** The state of a run. The aggregator is given by the messages it has received, `coord`
      is the coordinator as of the last recorded revision, and `order` lists the workers as
      they joined. */
  datatype Fleet = Fleet(
    clock: Time,
    coord: Coordination.Coordinator,
    reconciling: Option<Reconciled>,
    messages: seq<Message>,
    order: seq<string>,
    nodes: map<string, Node>)

  ghost function RunOf(f: Fleet): Run {
    Play(f.coord.runId, f.messages)
  }

  function NewFleet(clock: Time, coord: Coordination.Coordinator): Fleet {
    Fleet(clock, coord, None, [], [], map[])
  }

  datatype Move =
    | Advance(to: Time)
    | Join(worker: string)
    | Wake
    | Publish
    | Take(worker: string, now: Time, interval: Interval)
    | Fire(worker: string, interval: Interval)
    | EndScheduler(worker: string, failed: bool)
    | Cancel(worker: string)
    | Deliver(worker: string)

  function Delivering(nodes: map<string, Node>, assignments: map<string, LoadAssignment>): map<string, Node> {
    map w | w in nodes ::
      if w in assignments then nodes[w].(inbox := nodes[w].inbox + [assignments[w]]) else nodes[w]
  }

  /** The coordinator reads the sessions and the clock, and makes a revision if there are
      enough workers and the run is not over. */
  ghost function Woken(f: Fleet): Fleet {
    var (coord, outcome) := Coordination.Reconcile(f.coord, f.order, f.clock);
    if outcome.Issued? then f.(reconciling := Some(Reconciled(coord, outcome.assignments)))
    else f.(coord := coord)
  }

  /** However late, the coordinator records the revision with the aggregator and sends each
      of its workers the assignment, which the worker takes at any later time. */
  ghost function Published(f: Fleet): Fleet
    requires f.reconciling.Some?
  {
    var r := f.reconciling.value;
    f.(coord := r.coord,
       reconciling := None,
       messages := f.messages + [Revision(r.coord.revision, r.assignments)],
       nodes := Delivering(f.nodes, r.assignments))
  }

  /** The last revision that does not include a worker that joins now. */
  function LastWithout(f: Fleet): nat {
    f.coord.revision + if f.reconciling.Some? then 1 else 0
  }

  ghost function Next(f: Fleet, m: Move): Fleet
    requires Possible(f, m)
  {
    match m
    case Advance(to) => f.(clock := to)
    case Join(w) =>
      f.(order := f.order + [w], nodes := f.nodes[w := NewNode(w, LastWithout(f))])
    case Wake => Woken(f)
    case Publish => Published(f)
    case Take(w, now, interval) =>
      f.(clock := now, nodes := f.nodes[w := NodeApplied(f.nodes[w], now, interval).0])
    case Fire(w, interval) =>
      f.(nodes := f.nodes[w := NodeFired(f.nodes[w], interval)])
    case EndScheduler(w, failed) =>
      f.(nodes := f.nodes[w := f.nodes[w].(ctrl := SchedulerEnded(f.nodes[w].ctrl, failed))])
    case Cancel(w) =>
      f.(nodes := f.nodes[w := f.nodes[w].(ctrl := Cancelled(f.nodes[w].ctrl))])
    case Deliver(w) => Handed(f, w)
  }

  ghost predicate HasPending(f: Fleet, w: string) {
    w in f.nodes && f.nodes[w].delivered < |f.nodes[w].ctrl.outbound|
  }

  /** The oldest delta a worker has sent and the aggregator has not seen. */
  function Pending(n: Node): MetricsDelta
    requires n.delivered < |n.ctrl.outbound|
  {
    n.ctrl.outbound[n.delivered]
  }

  /** The aggregator receives the next delta of a worker's queue. */
  ghost function Handed(f: Fleet, w: string): Fleet
    requires HasPending(f, w)
  {
    var n := f.nodes[w];
    f.(messages := f.messages + [Delivery(w, Some(Pending(n)))],
       nodes := f.nodes[w := n.(delivered := n.delivered + 1)])
  }

  /** What the parties can do: the clock is monotone and timers never fire early. */
  ghost predicate Possible(f: Fleet, m: Move) {
    match m
    case Advance(to) => f.clock <= to
    case Join(w) => w !in f.nodes && w != "" && Trim(w) == w
    case Wake => f.reconciling.None?
    case Publish => f.reconciling.Some?
    case Take(w, now, interval) =>
      && w in f.nodes && f.nodes[w].inbox != [] && !f.nodes[w].ctrl.halted && f.nodes[w].ctrl.interval > 0
      && f.clock <= now
    case Fire(w, interval) =>
      && w in f.nodes && !f.nodes[w].ctrl.halted && f.nodes[w].ctrl.interval > 0
      && f.nodes[w].ctrl.timerArmed && f.nodes[w].ctrl.timerAt <= f.clock
    case EndScheduler(w, _) => w in f.nodes
    case Cancel(w) => w in f.nodes
    case Deliver(w) => HasPending(f, w)
  }

  function Contents(emitted: seq<MetricsDelta>): (contents: seq<Snapshot>)
    ensures |contents| == |emitted|
  {
    seq(|emitted|, i requires 0 <= i < |emitted| => Decoded(emitted[i]))
  }

  function EmittedBy(f: Fleet, w: string): seq<MetricsDelta> {
    if w in f.nodes then f.nodes[w].ctrl.outbound else []
  }

  function EmittedTotals(f: Fleet): (totals: seq<Snapshot>)
    ensures |totals| == |f.order|
  {
    seq(|f.order|, i requires 0 <= i < |f.order| => Sum(Contents(EmittedBy(f, f.order[i]))))
  }

  /** Everything the fleet has reported so far, delivered or not. */
  function EmittedTotal(f: Fleet): Snapshot {
    Sum(EmittedTotals(f))
  }

  /** The hypotheses under which controllers and aggregator agree: replacements are
      applied before the deadline, the run window can be written as a timestamp, results
      come from an HTTP client, and the fleet's totals fit their 64-bit counters. */
  ghost predicate Hypotheses(f: Fleet, m: Move)
    requires Possible(f, m)
  {
    && (m.Wake? && f.coord.revision == 0 ==>
          f.clock + f.coord.leadTime + f.coord.config.load.duration <= MAX_TIMESTAMP)
    && (m.Take? ==> Typical(m.interval))
    && (m.Take? && f.nodes[m.worker].ctrl.current.Some? ==> m.now < f.coord.deadline)
    && (m.Fire? ==> Typical(m.interval))
    && Fits(EmittedTotal(Next(f, m)))
  }

  /** Every move of the run is possible and within the hypotheses. */
  ghost predicate Legal(f: Fleet, moves: seq<Move>)
    decreases |moves|, 0
  {
    moves == [] ||
    var init, last := moves[..|moves| - 1], moves[|moves| - 1];
    Legal(f, init) && Possible(After(f, init), last) && Hypotheses(After(f, init), last)
  }

  ghost function After(f: Fleet, moves: seq<Move>): Fleet
    requires Legal(f, moves)
    decreases |moves|, 1
  {
    if moves == [] then f
    else Next(After(f, moves[..|moves| - 1]), moves[|moves| - 1])
  }

  // ----- The invariant -------------------------------------------------------------------

  /** What the workers see of the center. */
  ghost function EnvOf(f: Fleet): Env {
    Env(f.clock, f.coord.runId, f.coord.config.target, f.coord.revision, f.coord.startsAt, f.coord.deadline,
        RunOf(f).agg.assignments)
  }

  /** The accepted deltas of a worker are the delivered prefix of what it emitted. */
  ghost predicate DeliveredOk(run: Run, w: string, n: Node) {
    var h := History(run.log, w);
    && |h| == n.delivered <= |n.ctrl.outbound|
    && forall i :: 0 <= i < |h| ==> h[i].delta == n.ctrl.outbound[i]
  }

  /** The delta closes the latest revision of an active worker at the deadline. */
  ghost predicate Closes(env: Env, w: string, d: MetricsDelta) {
    && d.finalForRevision && d.revision == env.revision && AsTime(d.intervalEnd) == env.deadline
    && ActiveIn(env.assignments, w, d.revision)
  }

  /** A delivered closing delta of the latest revision has been counted as its finish. */
  ghost predicate FinishCounted(env: Env, run: Run, w: string, n: Node) {
    forall i :: 0 <= i < n.delivered <= |n.ctrl.outbound| && Closes(env, w, n.ctrl.outbound[i]) ==>
      w in run.agg.workers && run.agg.workers[w].finalRevision == env.revision
  }

  ghost predicate WorkerOk(env: Env, run: Run, w: string, n: Node) {
    NodeOk(env, w, n) && DeliveredOk(run, w, n) && FinishCounted(env, run, w, n)
  }

  ghost predicate NodesOk(env: Env, run: Run, order: seq<string>, nodes: map<string, Node>) {
    && ListsOnce(order)
    && (forall w :: w in order <==> w in nodes)
    && (forall w :: w in nodes ==> WorkerOk(env, run, w, nodes[w]))
    && (forall i :: 0 <= i < |run.log| ==> run.log[i].worker in nodes)
  }

  /** Coordinator, aggregator and recorded history agree, and nothing has been refused. */
  ghost predicate CenterOk(env: Env, coord: Coordination.Coordinator, messages: seq<Message>, agg: Aggregate) {
    && Coordination.Consistent(coord)
    && EnvOk(env)
    && FreshRevisions(coord.runId, messages)
    && agg.runId == coord.runId
    && agg.violations == []
    && (coord.revision == 0 ==> agg.latest == map[])
    && (coord.revision > 0 ==>
          coord.revision in agg.assignments && agg.latest == agg.assignments[coord.revision])
  }

  /** A revision being made follows the recorded ones, is one the workers will accept, and
      is for exactly the workers that had joined when the sessions were read. */
  ghost predicate ReconcilingOk(coord: Coordination.Coordinator, r: Option<Reconciled>, nodes: map<string, Node>) {
    match r
    case None => forall w :: w in nodes ==> nodes[w].joined <= coord.revision
    case Some(r) =>
      && Coordination.Consistent(r.coord)
      && r.coord.revision == coord.revision + 1 && r.coord.config == coord.config && r.coord.runId == coord.runId
      && (coord.revision > 0 ==> r.coord.startsAt == coord.startsAt && r.coord.deadline == coord.deadline)
      && 0 <= r.coord.startsAt && r.coord.deadline <= MAX_TIMESTAMP
      && (forall w :: w in r.assignments ==>
            Coordination.IssuedBy(r.coord, r.assignments[w]) && Problem(r.assignments[w]) == None)
      && (forall w :: w in r.assignments <==> w in nodes && nodes[w].joined <= coord.revision)
  }

  ghost predicate FleetOk(f: Fleet) {
    && CenterOk(EnvOf(f), f.coord, f.messages, RunOf(f).agg)
    && NodesOk(EnvOf(f), RunOf(f), f.order, f.nodes)
    && ReconcilingOk(f.coord, f.reconciling, f.nodes)
  }

  /** Only joins matter to a revision being made. */
  lemma ReconcilingStays(coord: Coordination.Coordinator, r: Option<Reconciled>, nodes: map<string, Node>,
                         w: string, n: Node)
    requires ReconcilingOk(coord, r, nodes) && w in nodes && n.joined == nodes[w].joined
    ensures ReconcilingOk(coord, r, nodes[w := n])
  {
    hide Coordination.Consistent, Problem, Coordination.IssuedBy;
  }

  lemma NewFleetOk(clock: Time, coord: Coordination.Coordinator)
    requires clock >= 0 && Coordination.Consistent(coord) && coord.revision == 0
    ensures FleetOk(NewFleet(clock, coord))
  {
  }

  lemma PlayAppend(runId: string, messages: seq<Message>, m: Message)
    ensures Play(runId, messages + [m]) == Step(Play(runId, messages), m)
  {
    assert (messages + [m])[..|messages|] == messages;
  }

  lemma FreshAppend(runId: string, messages: seq<Message>, m: Message)
    requires FreshRevisions(runId, messages)
    requires m.Revision? ==> m.revision !in Play(runId, messages).agg.assignments
    ensures FreshRevisions(runId, messages + [m])
  {
    hide Play;
    assert (messages + [m])[..|messages|] == messages;
  }

  // ----- Moves of one worker -----------------------------------------------------------------

  lemma ClockMoves(env: Env, coord: Coordination.Coordinator, messages: seq<Message>, agg: Aggregate, to: Time)
    requires CenterOk(env, coord, messages, agg) && env.clock <= to
    ensures CenterOk(env.(clock := to), coord, messages, agg)
    ensures EnvOk(env) && EnvOk(env.(clock := to)) && Extends(env, env.(clock := to))
  {
    hide FreshRevisions;
  }

  lemma WorkerWaits(env: Env, next: Env, run: Run, w: string, n: Node)
    requires EnvOk(env) && EnvOk(next) && Extends(env, next) && next == env.(clock := next.clock)
    requires WorkerOk(env, run, w, n)
    ensures WorkerOk(next, run, w, n)
  {
    hide NodeOk, DeliveredOk, EnvOk, Extends;
    NodeWaits(env, next, w, n);
    assert forall d :: Closes(env, w, d) == Closes(next, w, d);
  }

  lemma CountedWaits(env: Env, next: Env, run: Run, w: string, n: Node)
    requires next == env.(clock := next.clock) && FinishCounted(env, run, w, n)
    ensures FinishCounted(next, run, w, n)
  {
    assert forall d :: Closes(env, w, d) == Closes(next, w, d);
  }

  lemma ReplaceNode(env: Env, next: Env, run: Run, order: seq<string>, nodes: map<string, Node>, w: string, n: Node)
    requires EnvOk(env) && EnvOk(next) && Extends(env, next) && next == env.(clock := next.clock)
    requires NodesOk(env, run, order, nodes) && w in nodes && WorkerOk(next, run, w, n)
    ensures NodesOk(next, run, order, nodes[w := n])
  {
    hide WorkerOk, EnvOk, Extends, ListsOnce;
    forall v | v in nodes && v != w ensures WorkerOk(next, run, v, nodes[v]) {
      WorkerWaits(env, next, run, v, nodes[v]);
    }
  }

  lemma AllWait(env: Env, next: Env, run: Run, order: seq<string>, nodes: map<string, Node>)
    requires EnvOk(env) && EnvOk(next) && Extends(env, next) && next == env.(clock := next.clock)
    requires NodesOk(env, run, order, nodes)
    ensures NodesOk(next, run, order, nodes)
  {
    hide WorkerOk, EnvOk, Extends, ListsOnce;
    forall v | v in nodes ensures WorkerOk(next, run, v, nodes[v]) {
      WorkerWaits(env, next, run, v, nodes[v]);
    }
  }

  /** Emitting more leaves what was delivered as it was. */
  lemma PrefixDelivered(env: Env, run: Run, w: string, before: Node, n: Node)
    requires DeliveredOk(run, w, before) && FinishCounted(env, run, w, before)
    requires n.delivered == before.delivered
    requires |before.ctrl.outbound| <= |n.ctrl.outbound|
    requires n.ctrl.outbound[..|before.ctrl.outbound|] == before.ctrl.outbound
    ensures DeliveredOk(run, w, n) && FinishCounted(env, run, w, n)
  {
    hide History, Closes;
    forall i | 0 <= i < n.delivered ensures n.ctrl.outbound[i] == before.ctrl.outbound[i] {
      assert n.ctrl.outbound[..|before.ctrl.outbound|][i] == before.ctrl.outbound[i];
    }
  }

  /** The whole step of one worker whose node stays as it should be. */
  lemma NodeMoves(f: Fleet, w: string, n: Node, clock: Time)
    requires FleetOk(f) && w in f.nodes && f.clock <= clock
    requires NodeOk(EnvOf(f).(clock := clock), w, n)
    requires n.delivered == f.nodes[w].delivered && n.joined == f.nodes[w].joined
    requires var before := f.nodes[w].ctrl.outbound;
      |before| <= |n.ctrl.outbound| && n.ctrl.outbound[..|before|] == before
    ensures FleetOk(f.(clock := clock, nodes := f.nodes[w := n]))
  {
    var g, run := f.(clock := clock, nodes := f.nodes[w := n]), RunOf(f);
    var env, next := EnvOf(f), EnvOf(f).(clock := clock);
    assert RunOf(g) == run && EnvOf(g) == next;
    hide NodeOk, EnvOk, Play, FreshRevisions, Extends, CenterOk, RunOf, EnvOf, DeliveredOk, FinishCounted, ListsOnce,
      ReconcilingOk;
    ReconcilingStays(f.coord, f.reconciling, f.nodes, w, n);
    ClockMoves(env, f.coord, f.messages, run.agg, clock);
    assert WorkerOk(env, run, w, f.nodes[w]);
    CountedWaits(env, next, run, w, f.nodes[w]);
    PrefixDelivered(next, run, w, f.nodes[w], n);
    ReplaceNode(env, next, run, f.order, f.nodes, w, n);
  }

  lemma WorkerOf(f: Fleet, w: string)
    requires FleetOk(f) && w in f.nodes
    ensures EnvOk(EnvOf(f)) && WorkerOk(EnvOf(f), RunOf(f), w, f.nodes[w])
  {
    hide EnvOk, Play, FreshRevisions, WorkerOk, EnvOf, RunOf, ListsOnce;
  }

  lemma TakeKeeps(f: Fleet, w: string, now: Time, interval: Interval)
    requires FleetOk(f) && Possible(f, Take(w, now, interval)) && Typical(interval)
    requires f.nodes[w].ctrl.current.Some? ==> now < f.coord.deadline
    ensures FleetOk(Next(f, Take(w, now, interval)))
  {
    var n, env := f.nodes[w], EnvOf(f);
    assert env.clock == f.clock && env.deadline == f.coord.deadline;
    assert CenterOk(env, f.coord, f.messages, RunOf(f).agg);
    hide NodeOk, EnvOk, FleetOk, EnvOf, RunOf, Extends, NodeApplied, CenterOk, DeliveredOk, FinishCounted;
    WorkerOf(f, w);
    ClockMoves(env, f.coord, f.messages, RunOf(f).agg, now);
    ApplyKeepsNode(env, env.(clock := now), w, n, interval);
    NodeAppliedFrame(n, now, interval);
    NodeMoves(f, w, NodeApplied(n, now, interval).0, now);
  }

  lemma NodeAppliedFrame(n: Node, now: Time, interval: Interval)
    requires n.inbox != [] && n.ctrl.interval > 0
    ensures NodeApplied(n, now, interval).0.delivered == n.delivered
    ensures NodeApplied(n, now, interval).0.joined == n.joined
  {
  }

  lemma FireKeeps(f: Fleet, w: string, interval: Interval)
    requires FleetOk(f) && Possible(f, Fire(w, interval)) && Typical(interval)
    ensures FleetOk(Next(f, Fire(w, interval)))
  {
    var n, env := f.nodes[w], EnvOf(f);
    assert env.(clock := f.clock) == env && env.clock == f.clock;
    hide NodeOk, EnvOk, FleetOk, EnvOf, RunOf, Fired, DeliveredOk, FinishCounted;
    WorkerOf(f, w);
    FireKeepsNode(env, w, n, interval);
    NodeMoves(f, w, NodeFired(n, interval), f.clock);
  }

  lemma StopKeeps(f: Fleet, w: string, d: Controller)
    requires FleetOk(f) && w in f.nodes
    requires d == f.nodes[w].ctrl.(scheduling := d.scheduling, halted := d.halted)
    requires f.nodes[w].ctrl.halted ==> d.halted
    ensures FleetOk(f.(nodes := f.nodes[w := f.nodes[w].(ctrl := d)]))
  {
    var n, env := f.nodes[w], EnvOf(f);
    assert env.(clock := f.clock) == env;
    hide NodeOk, EnvOk, FleetOk, EnvOf, RunOf, DeliveredOk, FinishCounted;
    WorkerOf(f, w);
    StopKeepsNode(env, w, n, d);
    assert d.outbound[..|n.ctrl.outbound|] == n.ctrl.outbound;
    NodeMoves(f, w, n.(ctrl := d), f.clock);
  }

  lemma AdvanceKeeps(f: Fleet, to: Time)
    requires FleetOk(f) && f.clock <= to
    ensures FleetOk(f.(clock := to))
  {
    var env, next := EnvOf(f), EnvOf(f).(clock := to);
    assert EnvOf(f.(clock := to)) == next && RunOf(f.(clock := to)) == RunOf(f);
    hide EnvOk, Play, CenterOk, RunOf, NodesOk, Extends, EnvOf;
    ClockMoves(env, f.coord, f.messages, RunOf(f).agg, to);
    AllWait(env, next, RunOf(f), f.order, f.nodes);
  }

  lemma {:induction false} NoHistory(log: seq<Entry>, w: string)
    requires forall i :: 0 <= i < |log| ==> log[i].worker != w
    ensures History(log, w) == []
    decreases |log|
  {
    if log == [] {
    } else {
      NoHistory(log[..|log| - 1], w);
    }
  }

  lemma NewNodeOk(env: Env, run: Run, w: string)
    requires EnvOk(env) && Trim(w) != "" && History(run.log, w) == []
    ensures forall joined: nat :: env.revision <= joined <= env.revision + 1 ==> WorkerOk(env, run, w, NewNode(w, joined))
  {
    hide History;
  }

  lemma NodesJoin(env: Env, run: Run, order: seq<string>, nodes: map<string, Node>, w: string, n: Node)
    requires NodesOk(env, run, order, nodes) && w !in nodes && WorkerOk(env, run, w, n)
    ensures NodesOk(env, run, order + [w], nodes[w := n])
  {
    hide WorkerOk;
    assert forall v :: v in order + [w] <==> v in order || v == w;
  }

  lemma NobodyReported(env: Env, run: Run, order: seq<string>, nodes: map<string, Node>, w: string)
    requires NodesOk(env, run, order, nodes) && w !in nodes
    ensures History(run.log, w) == []
  {
    hide WorkerOk, ListsOnce;
    NoHistory(run.log, w);
  }

  lemma JoinKeeps(f: Fleet, w: string)
    requires FleetOk(f) && Possible(f, Join(w))
    ensures FleetOk(Next(f, Join(w)))
  {
    var g, env, run := Next(f, Join(w)), EnvOf(f), RunOf(f);
    JoinView(f, w);
    assert CenterOk(env, f.coord, f.messages, run.agg) && NodesOk(env, run, f.order, f.nodes);
    assert EnvOk(env) && env.revision == f.coord.revision;
    hide EnvOk, WorkerOk, EnvOf, RunOf, NodesOk, CenterOk, ReconcilingOk, Next, Possible, Trim;
    NobodyReported(env, run, f.order, f.nodes, w);
    NewNodeOk(env, run, w);
    NodesJoin(env, run, f.order, f.nodes, w, NewNode(w, LastWithout(f)));
  }

  /** What a join changes, and what it means for a revision being made. */
  lemma JoinView(f: Fleet, w: string)
    requires FleetOk(f) && Possible(f, Join(w))
    ensures var g := Next(f, Join(w));
      && g == f.(order := f.order + [w], nodes := f.nodes[w := NewNode(w, LastWithout(f))])
      && EnvOf(g) == EnvOf(f) && RunOf(g) == RunOf(f) && w !in f.nodes && w != "" && Trim(w) == w
      && ReconcilingOk(g.coord, g.reconciling, g.nodes)
  {
    hide CenterOk, NodesOk, Play, Coordination.Consistent, Problem, Coordination.IssuedBy, Trim;
  }
}
