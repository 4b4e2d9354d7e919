/** The session registry and the coordinator's one-slot wakeup channel: bursts of joins
    coalesce into one wakeup, and none is lost. */
module Membership {
  import opened Wire
  import opened SortedStrings

  /** Sessions are numbered in the order they connect; a worker ID has at most one. */
  type Sessions = map<string, nat>

  /** Registers a session unless its worker is already connected. */
  function Added(s: Sessions, w: string, session: nat): Sessions {
    if w in s then s else s[w := session]
  }

  /** Removes the session only if it is still the worker's current one. */
  function Removed(s: Sessions, w: string, session: nat): Sessions {
    if w in s && s[w] == session then s - {w} else s
  }

  /** The list names exactly the connected workers, in order. */
  ghost predicate ListsConnected(ids: seq<string>, s: Sessions) {
    Sorted(ids) && forall w :: multiset(ids)[w] == (if w in s then 1 else 0)
  }

  class SessionRegistry {
    var sessions: Sessions

    constructor ()
      ensures sessions == map[]
    {
      sessions := map[];
    }

    method AddSession(w: string, session: nat) returns (added: bool)
      modifies this
      ensures sessions == Added(old(sessions), w, session) && added == (w !in old(sessions))
    {
      if w in sessions {
        return false;
      }
      sessions := sessions[w := session];
      return true;
    }

    method RemoveSession(w: string, session: nat) returns (removed: bool)
      modifies this
      ensures sessions == Removed(old(sessions), w, session)
      ensures removed == (w in old(sessions) && old(sessions)[w] == session)
    {
      removed := false;
      if w in sessions && sessions[w] == session {
        sessions := sessions - {w};
        removed := true;
      }
    }

    /** The connected workers in order, whatever order the registry yields them in. */
    method ActiveSessions() returns (ids: seq<string>)
      ensures ListsConnected(ids, sessions)
    {
      var found: seq<string> := [];
      var remaining := sessions.Keys;
      while remaining != {}
        invariant remaining <= sessions.Keys
        invariant forall w :: multiset(found)[w] == (if w in sessions && w !in remaining then 1 else 0)
        decreases remaining
      {
        var w :| w in remaining;
        found := found + [w];
        remaining := remaining - {w};
      }
      ids := Sort(found);
      SortSorts(found);
    }
  }

  // ----- Joins and wakeups, interleaved -------------------------------------------------------

  /** A reconciliation works on the sessions it read, by worker. */
  datatype Phase = Idle | Woken | Reconciling(snapshot: Sessions)

  /** `joined` holds the sessions that have signalled their join, `seen` those that were in
      a snapshot taken after they did. */
  datatype Control = Control(
    sessions: Sessions, count: nat, token: bool, phase: Phase, joined: set<nat>, seen: set<nat>)

  datatype Event =
    | Connect(worker: string)
    | Signal(session: nat)
    | Disconnect(worker: string, session: nat)
    | Receive
    | Snapshot(ids: seq<string>)
    | SendFails(worker: string)
    | Finish

  function NewControl(): Control {
    Control(map[], 0, false, Idle, {}, {})
  }

  ghost predicate Enabled(c: Control, e: Event) {
    match e
    case Connect(_) => true
    case Signal(session) => session < c.count && session !in c.joined
    case Disconnect(_, session) => session < c.count
    case Receive => c.phase.Idle? && c.token
    case Snapshot(ids) => c.phase.Woken? && ListsConnected(ids, c.sessions)
    case SendFails(w) => c.phase.Reconciling? && w in c.phase.snapshot
    case Finish => c.phase.Reconciling?
  }

  ghost function Next(c: Control, e: Event): Control
    requires Enabled(c, e)
  {
    match e
    case Connect(w) => c.(sessions := Added(c.sessions, w, c.count), count := c.count + 1)
    case Signal(session) => c.(token := true, joined := c.joined + {session})
    case Disconnect(w, session) => c.(sessions := Removed(c.sessions, w, session))
    case Receive => c.(token := false, phase := Woken)
    case Snapshot(ids) =>
      var listed := map w | w in c.sessions && w in ids :: c.sessions[w];
      c.(phase := Reconciling(listed), seen := c.seen + (c.joined * listed.Values))
    case SendFails(w) => c.(sessions := Removed(c.sessions, w, c.phase.snapshot[w]))
    case Finish => c.(phase := Idle)
  }

  ghost predicate Possible(events: seq<Event>)
    decreases |events|, 0
  {
    events == [] ||
    var init := events[..|events| - 1];
    Possible(init) && Enabled(After(init), events[|events| - 1])
  }

  ghost function After(events: seq<Event>): Control
    requires Possible(events)
    decreases |events|, 1
  {
    if events == [] then NewControl()
    else Next(After(events[..|events| - 1]), events[|events| - 1])
  }

  /** A connected session whose join was signalled and not yet seen has a wakeup coming. */
  ghost predicate Covered(c: Control) {
    && (forall w :: w in c.sessions ==> c.sessions[w] < c.count)
    && (forall s :: s in c.joined ==> s < c.count)
    && (forall w, v :: w in c.sessions && v in c.sessions && c.sessions[w] == c.sessions[v] ==> w == v)
    && (forall w :: w in c.sessions && c.sessions[w] in c.joined && c.sessions[w] !in c.seen ==> c.token || c.phase.Woken?)
  }

  lemma EventKeepsCovered(c: Control, e: Event)
    requires Covered(c) && Enabled(c, e)
    ensures Covered(Next(c, e))
  {
    var next := Next(c, e);
    if e.Snapshot? {
      forall w | w in next.sessions && next.sessions[w] in next.joined ensures next.sessions[w] in next.seen {
        assert multiset(e.ids)[w] == 1;
        assert w in multiset(e.ids);
        assert w in next.phase.snapshot && next.phase.snapshot[w] == c.sessions[w];
        assert c.sessions[w] in next.phase.snapshot.Values;
      }
    }
  }

  lemma {:induction false} EveryControlIsCovered(events: seq<Event>)
    requires Possible(events)
    ensures Covered(After(events))
    decreases |events|
  {
    hide Covered, Enabled, Next;
    if events == [] {
      NothingCovered();
    } else {
      EveryControlIsCovered(events[..|events| - 1]);
      EventKeepsCovered(After(events[..|events| - 1]), events[|events| - 1]);
    }
  }

  lemma NothingCovered()
    ensures Covered(NewControl())
  {
  }

  /** No join is lost: every session that signalled its join has been in a snapshot taken
      since, is no longer connected, or is covered by a wakeup still to be served. When the
      coordinator idles without a token, the first two are all there is. */
  lemma JoinsAreNotLost(events: seq<Event>, session: nat)
    requires Possible(events) && session in After(events).joined
    ensures var c := After(events);
      && (session in c.seen || session !in c.sessions.Values || c.token || c.phase.Woken?)
      && (c.phase.Idle? && !c.token ==> session in c.seen || session !in c.sessions.Values)
  {
    EveryControlIsCovered(events);
    hide Possible, After;
    var c := After(events);
    if session in c.sessions.Values {
      var w :| w in c.sessions && c.sessions[w] == session;
    }
  }

  function Signals(events: seq<Event>): nat {
    if events == [] then 0
    else Signals(events[..|events| - 1]) + if events[|events| - 1].Signal? then 1 else 0
  }

  function Wakeups(events: seq<Event>): nat {
    if events == [] then 0
    else Wakeups(events[..|events| - 1]) + if events[|events| - 1].Receive? then 1 else 0
  }

  /** Bursts coalesce: every wakeup, and the token that announces one, has a signal of its own. */
  lemma {:induction false} WakeupsAreSignalled(events: seq<Event>)
    requires Possible(events)
    ensures Wakeups(events) + (if After(events).token then 1 else 0) <= Signals(events)
    decreases |events|
  {
    if events == [] {
    } else {
      WakeupsAreSignalled(events[..|events| - 1]);
    }
  }

  /** What ends a worker's session: its own cleanup, or a failed send to the very session
      that the reconciliation at work has read. */
  predicate Ends(c: Control, e: Event, w: string, session: nat) {
    || e == Disconnect(w, session)
    || (e == SendFails(w) && c.phase.Reconciling? && w in c.phase.snapshot && c.phase.snapshot[w] == session)
  }

  lemma {:induction false} PrefixPossible(events: seq<Event>, n: nat)
    requires Possible(events) && n <= |events|
    ensures Possible(events[..n])
    decreases |events|
  {
    hide Enabled, After;
    if n == |events| {
      assert events[..n] == events;
    } else {
      PrefixPossible(events[..|events| - 1], n);
      assert events[..|events| - 1][..n] == events[..n];
    }
  }

  /** The state after the first n events. */
  ghost function At(events: seq<Event>, n: nat): Control
    requires Possible(events) && n <= |events|
  {
    PrefixPossible(events, n);
    After(events[..n])
  }

  lemma NextAt(events: seq<Event>, n: nat)
    requires Possible(events) && n < |events|
    ensures Enabled(At(events, n), events[n]) && At(events, n + 1) == Next(At(events, n), events[n])
    ensures Covered(At(events, n))
  {
    hide Enabled, Next, Covered;
    PrefixPossible(events, n);
    PrefixPossible(events, n + 1);
    EveryControlIsCovered(events[..n]);
    assert events[..n + 1][..n] == events[..n];
  }

  /** A session that has ended never comes back, for numbers are not used again. */
  lemma SessionStep(c: Control, e: Event, w: string, session: nat)
    requires Covered(c) && Enabled(c, e) && session < c.count
    ensures session < Next(c, e).count
    ensures w in Next(c, e).sessions && Next(c, e).sessions[w] == session <==>
      w in c.sessions && c.sessions[w] == session && !Ends(c, e, w, session)
  {
  }

  /** Over any stretch of events a session stays connected exactly if none of them ends it:
      its own cleanup, or a failed send to the very session a reconciliation had read. */
  lemma {:induction false} SessionLasts(events: seq<Event>, i: nat, j: nat, w: string, session: nat)
    requires Possible(events) && i <= j <= |events|
    requires w in At(events, i).sessions && At(events, i).sessions[w] == session
    ensures session < At(events, j).count
    ensures w in At(events, j).sessions && At(events, j).sessions[w] == session <==>
      forall k: nat :: i <= k < j ==> !Ends(At(events, k), events[k], w, session)
    decreases j
  {
    hide Enabled, Next, Ends, At;
    if i == j {
      KnownSession(events, i, w);
    } else {
      SessionLasts(events, i, j - 1, w, session);
      NextAt(events, j - 1);
      SessionStep(At(events, j - 1), events[j - 1], w, session);
    }
  }

  lemma KnownSession(events: seq<Event>, i: nat, w: string)
    requires Possible(events) && i <= |events| && w in At(events, i).sessions
    ensures At(events, i).sessions[w] < At(events, i).count
  {
    PrefixPossible(events, i);
    EveryControlIsCovered(events[..i]);
    hide Possible, After;
  }
}
