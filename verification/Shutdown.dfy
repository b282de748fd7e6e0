/**
 Registration, shutdown and the sessions themselves as one system: the `stop()` calls of
 src/server.cpp are dispatched to the strands of the sessions of src/http-session.cpp and
 run there later. The task that registers an HTTP session is the session's identity; other
 tasks register handshake sessions, whose `stop()` does nothing, or shut the server down.
 */
module Shutdown {
  import opened Wrappers
  import Registry
  import SessionProtocol

  datatype State = State(
    registry: Registry.State,
    server: SessionProtocol.State,
    dispatched: set<nat>)   // stop() called, the handler of the strand not yet run

  datatype Action =
    | Server(step: Registry.Action, http: bool)   // `http`: the call brings an HTTP session
    | Session(id: nat, event: SessionProtocol.Event, now: real)

  /** The session that a step of the server calls `stop()` on. */
  function Stops(s: Registry.State, a: Registry.Action): Option<nat>
    requires Registry.Enabled(s, a)
  {
    if a.Run? && s.pcs[a.task].ShutStopping? && s.pcs[a.task].next < |s.pcs[a.task].active|
    then Some(s.pcs[a.task].active[s.pcs[a.task].next]) else None
  }

  predicate Creates(a: Action) {
    a.Server? && a.http && a.step.Call? && !a.step.shutdown
  }

  predicate Enabled(s: State, a: Action) {
    match a
    case Server(step, _) =>
      && Registry.Enabled(s.registry, step)
      && (Creates(a) ==> step.task !in s.server.sessions)   // always so, by the invariant
      && (step.Expire? ==> step.session !in s.dispatched)
    case Session(id, e, now) =>
      && SessionProtocol.Enabled(s.server, SessionProtocol.Step(id, e, now))
      && (e.Start? ==> id in s.registry.pcs && s.registry.pcs[id] == Registry.RegDone(true))
      && (e.StopRuns? ==> id in s.dispatched)
  }

  /** The HTTP sessions among the sessions that a step stops. */
  function Dispatches(s: State, a: Registry.Action): set<nat>
    requires Registry.Enabled(s.registry, a)
  {
    match Stops(s.registry, a)
    case None => {}
    case Some(id) => if id in s.server.sessions then {id} else {}
  }

  function Next(s: State, a: Action): State
    requires Enabled(s, a)
  {
    match a
    case Server(step, _) =>
      State(Registry.Next(s.registry, step),
            if Creates(a) then SessionProtocol.Next(s.server, SessionProtocol.Open(step.task)) else s.server,
            s.dispatched + Dispatches(s, step))
    case Session(id, e, now) =>
      s.(server := SessionProtocol.Next(s.server, SessionProtocol.Step(id, e, now)),
         dispatched := if e.StopRuns? then s.dispatched - {id} else s.dispatched)
  }

  /** Every session that has been given a `stop()` has run it, or is about to. */
  ghost predicate Carried(s: State) {
    forall x :: x in s.registry.stops && x in s.server.sessions ==> x in s.dispatched || s.server.sessions[x].stopped
  }

  ghost predicate Inv(s: State) {
    && Registry.Inv(s.registry) && SessionProtocol.Inv(s.server)
    && s.server.sessions.Keys <= s.registry.pcs.Keys
    && Carried(s)
  }

  lemma StopsAppend(s: Registry.State, a: Registry.Action)
    requires Registry.Enabled(s, a)
    ensures Registry.Next(s, a).stops == s.stops + (if Stops(s, a).Some? then [Stops(s, a).value] else [])
    ensures s.pcs.Keys <= Registry.Next(s, a).pcs.Keys
    ensures a.Call? ==> a.task !in s.pcs && a.task in Registry.Next(s, a).pcs
  {
  }

  lemma SessionMoves(s: SessionProtocol.State, id: nat, e: SessionProtocol.Event, now: real)
    requires SessionProtocol.Inv(s) && SessionProtocol.Enabled(s, SessionProtocol.Step(id, e, now))
    ensures var s' := SessionProtocol.Next(s, SessionProtocol.Step(id, e, now));
            && s'.sessions.Keys == s.sessions.Keys
            && (forall x :: x in s.sessions && s.sessions[x].stopped ==> s'.sessions[x].stopped)
            && (e.StopRuns? ==> s'.sessions[id].stopped)
  {
    SessionProtocol.OnlyTheFlipReplies(s.sessions[id], e, SessionProtocol.Answer(s, now));
  }

  lemma ServerKeeps(s: State, step: Registry.Action, http: bool)
    requires Inv(s) && Enabled(s, Server(step, http))
    ensures Inv(Next(s, Server(step, http)))
  {
    var a := Server(step, http);
    var s' := Next(s, a);
    Registry.NextKeeps(s.registry, step);
    StopsAppend(s.registry, step);
    if Creates(a) {
      SessionProtocol.NextKeeps(s.server, SessionProtocol.Open(step.task));
    }
    ServerCarries(s, step, http);
  }

  lemma ServerCarries(s: State, step: Registry.Action, http: bool)
    requires Registry.Inv(s.registry) && Carried(s) && Enabled(s, Server(step, http))
    ensures Carried(Next(s, Server(step, http)))
  {
    var s' := Next(s, Server(step, http));
    StopsAppend(s.registry, step);
    forall x | x in s'.registry.stops && x in s'.server.sessions
      ensures x in s'.dispatched || s'.server.sessions[x].stopped
    {
      if x !in s.server.sessions {
        NotYetStopped(s.registry, step.task);
      }
    }
  }

  /** A session that is only being created has not been stopped. */
  lemma NotYetStopped(s: Registry.State, t: nat)
    requires Registry.Inv(s) && t !in s.pcs
    ensures t !in s.stops
  {
    if t in s.stops {
      Registry.StopsAreRegistered(s, t);
    }
  }

  lemma SessionKeeps(s: State, id: nat, e: SessionProtocol.Event, now: real)
    requires Inv(s) && Enabled(s, Session(id, e, now))
    ensures Inv(Next(s, Session(id, e, now)))
  {
    SessionProtocol.NextKeeps(s.server, SessionProtocol.Step(id, e, now));
    SessionMoves(s.server, id, e, now);
  }

  function Initially(limiter: SessionProtocol.Limiter, start: real): State {
    State(Registry.INIT, SessionProtocol.Initially(limiter, start), {})
  }

  /** The state after a schedule, or None when some action was not enabled. */
  function Exec(limiter: SessionProtocol.Limiter, start: real, schedule: seq<Action>): Option<State> {
    if schedule == [] then Some(Initially(limiter, start))
    else
      match Exec(limiter, start, schedule[..|schedule| - 1])
      case None => None
      case Some(s) => if Enabled(s, schedule[|schedule| - 1]) then Some(Next(s, schedule[|schedule| - 1])) else None
  }

  lemma {:induction false} Reachable(limiter: SessionProtocol.Limiter, start: real, schedule: seq<Action>)
    requires Exec(limiter, start, schedule).Some?
    ensures Inv(Exec(limiter, start, schedule).value)
  {
    if schedule == [] {
      Registry.Reachable([]);
      SessionProtocol.Reachable(limiter, start, []);
    } else {
      Reachable(limiter, start, schedule[..|schedule| - 1]);
      var s := Exec(limiter, start, schedule[..|schedule| - 1]).value;
      match schedule[|schedule| - 1]
      case Server(step, http) => ServerKeeps(s, step, http);
      case Session(id, e, now) => SessionKeeps(s, id, e, now);
    }
  }

  /**
   What a shutdown achieves, over every interleaving of registering threads, stopping threads and
   session handlers: once the winning call has returned and the dispatched stops have run,
   every registered HTTP session that has not expired has its flag up, and its socket is
   closed or it is writing its 408.
   */
  lemma ShutdownReachesSessions(limiter: SessionProtocol.Limiter, start: real, schedule: seq<Action>, winner: nat, id: nat)
    requires Exec(limiter, start, schedule).Some?
    requires var s := Exec(limiter, start, schedule).value;
             && winner in s.registry.pcs && s.registry.pcs[winner] == Registry.ShutDone(true)
             && s.dispatched == {}
             && id in s.server.sessions && id in s.registry.pcs && s.registry.pcs[id] == Registry.RegDone(true)
             && id !in s.registry.expired
    ensures var st := Exec(limiter, start, schedule).value.server.sessions[id];
            st.stopped && (st.closed || st.timeout.Writing?)
  {
    var s := Exec(limiter, start, schedule).value;
    Reachable(limiter, start, schedule);
    Registry.ReturnedHasStopped(s.registry, winner);
    assert Registry.StopsOf(s.registry, id) == 1;
    assert id in s.registry.stops;
  }
}
