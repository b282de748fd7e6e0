/**
 Sessions of src/http-session.cpp as state machines, many of them sharing one limiter.

 The handlers of a session are serialised by its strand, so one handler is one step; the
 handlers of different sessions interleave freely. What the network and the timer do is
 nondeterministic: any outcome, at any moment, in any order.
 */
module SessionProtocol {
  import opened Wrappers
  import opened RateLimiting

  type Sid = nat

  /** What a timer handler is called with. */
  datatype TimerCode = Elapsed | Aborted | Failed

  datatype TimeoutTask = NotSpawned | Spawned(ec: TimerCode) | Writing | Ended

  /** How a request is answered. */
  datatype Kind = Refusal | Health | Upstream

  /** The coroutine, or the upstream session, that gives the answer. */
  datatype Reply = NoReply | Pending(kind: Kind) | Running(kind: Kind) | Over(kind: Kind)

  /** What a session has done with its request. */
  datatype Work = Work(parsed: nat, asked: nat, refused: nat, health: nat, upstream: nat)

  datatype Session = Session(
    started: bool,
    reading: bool,              // the read of the header is outstanding
    armed: bool,                // the timer handler has not run yet
    timeout: TimeoutTask,       // the coroutine on_header_timeout
    stopped: bool,              // stopped_
    closed: bool,               // the socket has been shut down
    reply: Reply,
    // history
    flips: nat,
    replies408: nat,
    work: Work)

  const NO_WORK := Work(0, 0, 0, 0, 0)
  const NEW_SESSION := Session(false, false, false, NotSpawned, false, false, NoReply, 0, 0, NO_WORK)

  datatype Event =
    | Start(tlsReady: bool)
    | HeaderRead(ok: bool, health: bool)   // whether the target read is /health
    | TimerHandler(ec: TimerCode)
    | TimeoutRuns
    | TimeoutWritten
    | StopRuns
    | ReplyRuns
    | ReplyEnds(handedOver: bool)          // whether an upstream session reached end of file

  predicate CanHandle(st: Session, e: Event) {
    match e
    case Start(_) => !st.started
    case HeaderRead(_, _) => st.reading
    case TimerHandler(_) => st.armed
    case TimeoutRuns => st.timeout.Spawned?
    case TimeoutWritten => st.timeout.Writing?
    case StopRuns => true
    case ReplyRuns => st.reply.Pending?
    case ReplyEnds(_) => st.reply.Running?
  }

  /** `request_stop`: the exchange of the stop flag. */
  function RequestStop(st: Session): Session {
    if st.stopped then st else st.(stopped := true, flips := st.flips + 1)
  }

  /** `stop()`: the call that flips the flag shuts the socket down. */
  function Stopped(st: Session): Session {
    if st.stopped then st else RequestStop(st).(closed := true)
  }

  /** The step calls `allow()`. */
  predicate Asks(st: Session, e: Event) {
    e.HeaderRead? && e.ok && !st.stopped
  }

  function KindOf(allowed: bool, health: bool): Kind {
    if !allowed then Refusal else if health then Health else Upstream
  }

  /** The work done when a parsed request has been put to the limiter and its answer chosen. */
  function Dispatched(w: Work, kind: Kind): Work {
    var w := w.(parsed := w.parsed + 1, asked := w.asked + 1);
    match kind
    case Refusal => w.(refused := w.refused + 1)
    case Health => w.(health := w.health + 1)
    case Upstream => w.(upstream := w.upstream + 1)
  }

  /** One handler; `allowed` is the limiter's answer, if it is asked. */
  function Handle(st: Session, e: Event, allowed: bool): Session
    requires CanHandle(st, e)
  {
    match e
    case Start(tlsReady) => st.(started := true, reading := tlsReady, armed := tlsReady)
    case HeaderRead(ok, health) =>
      var st := st.(reading := false);
      if !ok || st.stopped then st
      else
        var kind := KindOf(allowed, health);
        st.(work := Dispatched(st.work, kind), reply := Pending(kind))
    case TimerHandler(ec) => st.(armed := false, timeout := if ec.Aborted? then st.timeout else Spawned(ec))
    case TimeoutRuns =>
      if st.timeout.ec.Aborted? then st.(timeout := Ended)
      else if st.timeout.ec.Failed? then Stopped(st).(timeout := Ended)
      else if st.stopped then st.(timeout := Ended)
      else RequestStop(st).(timeout := Writing, replies408 := st.replies408 + 1)
    case TimeoutWritten => st.(timeout := Ended, closed := true)
    case StopRuns => Stopped(st)
    case ReplyRuns => st.(reply := Running(st.reply.kind))
    case ReplyEnds(handedOver) =>
      st.(reply := Over(st.reply.kind), closed := st.closed || (st.reply.kind.Upstream? && handedOver))
  }

  // ---------------------------------------------------------------- One session

  /** The stop flag, the 408, and the tasks that can write one. */
  predicate FlagOk(st: Session) {
    && st.flips == (if st.stopped then 1 else 0)
    && st.replies408 <= st.flips
    && (st.armed ==> st.timeout.NotSpawned?)
    && (!st.started ==> !st.armed && st.timeout.NotSpawned?)
  }

  /** A raised flag leads to a closed socket, and only it or a relayed response does. */
  predicate SocketOk(st: Session) {
    && (st.stopped ==> st.closed || st.timeout.Writing?)
    && (st.timeout.Writing? ==> st.stopped)
    && (st.closed ==> st.stopped || st.reply == Over(Upstream))
  }

  /** The whole work of a session, told by its reply. */
  function Tally(reply: Reply): Work {
    if reply.NoReply? then NO_WORK else Dispatched(NO_WORK, reply.kind)
  }

  /** At most one request is parsed; it is put to the limiter once and gets exactly one answer. */
  predicate WorkOk(st: Session) {
    && st.work == Tally(st.reply)
    && (!st.started ==> !st.reading)
    && (!st.started || st.reading ==> st.reply.NoReply?)
  }

  predicate SessionOk(st: Session) {
    FlagOk(st) && SocketOk(st) && WorkOk(st)
  }

  lemma HandleKeepsFlag(st: Session, e: Event, allowed: bool)
    requires FlagOk(st) && CanHandle(st, e)
    ensures FlagOk(Handle(st, e, allowed))
  {
  }

  lemma HandleKeepsSocket(st: Session, e: Event, allowed: bool)
    requires SessionOk(st) && CanHandle(st, e)
    ensures SocketOk(Handle(st, e, allowed))
  {
  }

  lemma HandleKeepsWork(st: Session, e: Event, allowed: bool)
    requires WorkOk(st) && CanHandle(st, e)
    ensures WorkOk(Handle(st, e, allowed))
  {
  }

  /** What a handler may do to the reply: choose it when it asks the limiter, or take it on. */
  predicate TakenOn(before: Reply, after: Reply) {
    || after == before
    || (before.Pending? && (after == Running(before.kind) || after == Over(before.kind)))
    || (before.Running? && after == Over(before.kind))
  }

  /** A handler that does not ask the limiter does no work, and one that runs after the flip asks nothing. */
  lemma HandleWork(st: Session, e: Event, allowed: bool)
    requires WorkOk(st) && CanHandle(st, e)
    ensures st.stopped ==> !Asks(st, e)
    ensures var st' := Handle(st, e, allowed);
            if Asks(st, e) then st.reply.NoReply? && st'.reply == Pending(KindOf(allowed, e.health))
            else st'.work == st.work && TakenOn(st.reply, st'.reply)
  {
  }

  /**
   The flag never falls and each flip is counted. A 408 is begun by an elapsed timer's
   coroutine that finds the flag down, by no other step, and that very step flips it.
   */
  lemma OnlyTheFlipReplies(st: Session, e: Event, allowed: bool)
    requires CanHandle(st, e)
    ensures var st' := Handle(st, e, allowed);
            && (st.stopped ==> st'.stopped) && (st.closed ==> st'.closed)
            && st'.flips == st.flips + (if !st.stopped && st'.stopped then 1 else 0)
            && (st'.replies408 != st.replies408 <==>
                  e.TimeoutRuns? && st.timeout == Spawned(Elapsed) && !st.stopped)
            && (st'.replies408 != st.replies408 ==>
                  !st.stopped && st'.stopped && st'.replies408 == st.replies408 + 1)
  {
  }

  /**
   What becomes of a header: read well and with the flag down, a refusal, a health reply or an
   upstream session, as the grant and the target have it; else nothing.
   */
  lemma HeaderChooses(st: Session, ok: bool, health: bool, allowed: bool)
    requires st.reading
    ensures var st' := Handle(st, HeaderRead(ok, health), allowed);
            && !st'.reading
            && (ok && !st.stopped ==>
                  && (st'.reply == Pending(Refusal) <==> !allowed)
                  && (st'.reply == Pending(Health) <==> allowed && health)
                  && (st'.reply == Pending(Upstream) <==> allowed && !health)
                  && st'.work.parsed == st.work.parsed + 1 && st'.work.asked == st.work.asked + 1)
            && (!ok || st.stopped ==> st'.reply == st.reply && st'.work == st.work)
  {
  }

  /** A timer that was aborted spawns nothing; any other spawns the coroutine with its code. */
  lemma TimerSpawns(st: Session, ec: TimerCode)
    requires st.armed
    ensures var st' := Handle(st, TimerHandler(ec), false);
            && st' == st.(armed := false, timeout := st'.timeout)
            && (ec == Aborted ==> st'.timeout == st.timeout)
            && (ec == Elapsed ==> st'.timeout == Spawned(Elapsed))
            && (ec == Failed ==> st'.timeout == Spawned(Failed))
  {
  }

  /** The coroutine: after a failure it stops the session, and elapsed it writes unless the session is stopped already. */
  lemma CoroutineActs(st: Session)
    requires st.timeout.Spawned?
    ensures var st' := Handle(st, TimeoutRuns, false);
            && (st.timeout == Spawned(Failed) ==>
                  st'.stopped && (!st.stopped ==> st'.closed) && st'.replies408 == st.replies408 && st'.timeout == Ended)
            && (st.timeout == Spawned(Elapsed) && !st.stopped ==>
                  st'.stopped && st'.replies408 == st.replies408 + 1 && st'.timeout == Writing && st'.closed == st.closed)
            && (st.timeout == Spawned(Elapsed) && st.stopped ==> st' == st.(timeout := Ended))
            && (st.timeout == Spawned(Aborted) ==> st' == st.(timeout := Ended))
  {
  }

  /** A stop raises the flag, and closes the socket unless another stop has been before. */
  lemma StopStops(st: Session)
    ensures var st' := Handle(st, StopRuns, false);
            st'.stopped && (!st.stopped ==> st'.closed) && (st.stopped ==> st' == st)
  {
  }

  /** A reply begins and ends as what was chosen; only an upstream response that was handed over closes the socket. */
  lemma ReplyProceeds(st: Session, handedOver: bool)
    ensures st.reply.Pending? ==> Handle(st, ReplyRuns, false) == st.(reply := Running(st.reply.kind))
    ensures st.reply.Running? ==>
              var st' := Handle(st, ReplyEnds(handedOver), false);
              && st' == st.(reply := Over(st.reply.kind), closed := st'.closed)
              && (st'.closed <==> st.closed || (st.reply.kind == Upstream && handedOver))
  {
  }

  // ---------------------------------------------------------------- All sessions and the limiter

  /** `init_rate_limiter`: a bucket with the configured numbers, or no limit. */
  datatype Limiter = Bucket(rate: NonNegative, burst: NonNegative) | Unlimited

  /**
   The sessions whose request was granted, and when `allow()` read the clock for it; the
   sessions whose health reply or upstream session has started, and when it did.
   */
  datatype State = State(
    limiter: Limiter,
    filledAt: real,              // when the bucket was filled
    calls: seq<Call>,            // the calls of allow(), in the order of its mutex
    sessions: map<Sid, Session>,
    granted: map<Sid, real>,
    starts: map<Sid, real>)

  datatype Action = Open(id: Sid) | Step(sid: Sid, event: Event, now: real)

  function Limit(l: Limiter): Limits
    requires l.Bucket?
  {
    Steady(l.rate, l.burst)
  }

  /** What `allow()` answers at `now`. */
  function Answer(s: State, now: real): bool {
    s.limiter.Unlimited? || Available(Limit(s.limiter), s.filledAt, s.calls, now) >= 1.0
  }

  predicate Enabled(s: State, a: Action) {
    match a
    case Open(id) => id !in s.sessions
    case Step(id, e, now) =>
      id in s.sessions && CanHandle(s.sessions[id], e) && LastInstant(s.filledAt, s.calls) <= now
  }

  /** The step starts a health reply or an upstream session. */
  predicate Starts(st: Session, e: Event) {
    e.ReplyRuns? && st.reply.Pending? && !st.reply.kind.Refusal?
  }

  function Next(s: State, a: Action): State
    requires Enabled(s, a)
  {
    match a
    case Open(id) => s.(sessions := s.sessions[id := NEW_SESSION])
    case Step(id, e, now) =>
      var st, allowed := s.sessions[id], Answer(s, now);
      var s' := s.(sessions := s.sessions[id := Handle(st, e, allowed)]);
      if Asks(st, e) then
        s'.(calls := s.calls + [Call(now, allowed)], granted := if allowed then s.granted[id := now] else s.granted)
      else if Starts(st, e) then s'.(starts := s.starts[id := now])
      else s'
  }

  function Initially(limiter: Limiter, start: real): State {
    State(limiter, start, [], map[], map[], map[])
  }

  /** The state after a schedule of the server's run, or None when some action was not enabled. */
  function Exec(limiter: Limiter, start: real, schedule: seq<Action>): Option<State> {
    if schedule == [] then Some(Initially(limiter, start))
    else
      match Exec(limiter, start, schedule[..|schedule| - 1])
      case None => None
      case Some(s) => if Enabled(s, schedule[|schedule| - 1]) then Some(Next(s, schedule[|schedule| - 1])) else None
  }

  /** The sessions that a map puts into the closed window [from, to]. */
  function Within(m: map<Sid, real>, from: real, to: real): set<Sid> {
    set id | id in m && from <= m[id] <= to
  }

  ghost predicate LimiterOk(s: State) {
    && Chronological(s.filledAt, s.calls)
    && (s.limiter.Bucket? ==> Greedy(Limit(s.limiter), s.filledAt, s.calls))
  }

  /** The grants are the admitted calls, one session each. */
  ghost predicate Counted(s: State) {
    && |s.granted| == Admitted(s.calls)
    && (forall from, to :: |Within(s.granted, from, to)| == AdmittedBetween(s.calls, from, to))
    && (forall id :: id in s.granted ==> s.granted[id] <= LastInstant(s.filledAt, s.calls))
  }

  predicate IsGranted(reply: Reply) {
    !reply.NoReply? && !reply.kind.Refusal?
  }

  predicate IsStarted(reply: Reply) {
    IsGranted(reply) && !reply.Pending?
  }

  /** A grant is a session's only one, and what is started was granted before. */
  ghost predicate RecordedAt(s: State, id: Sid) {
    && (id in s.granted <==> id in s.sessions && IsGranted(s.sessions[id].reply))
    && (id in s.starts <==> id in s.sessions && IsStarted(s.sessions[id].reply))
    && (id in s.starts ==> id in s.granted && s.granted[id] <= s.starts[id])
  }

  ghost predicate Recorded(s: State) {
    forall id :: RecordedAt(s, id)
  }

  ghost predicate SessionsOk(s: State) {
    forall id :: id in s.sessions ==> SessionOk(s.sessions[id])
  }

  ghost predicate Inv(s: State) {
    LimiterOk(s) && Counted(s) && Recorded(s) && SessionsOk(s)
  }

  lemma OpenKeeps(s: State, id: Sid)
    requires Inv(s) && Enabled(s, Open(id))
    ensures Inv(Next(s, Open(id)))
  {
    forall x: Sid
      ensures RecordedAt(Next(s, Open(id)), x)
    {
      assert RecordedAt(s, x);
    }
  }

  lemma WithinAdds(m: map<Sid, real>, id: Sid, t: real, from: real, to: real)
    requires id !in m
    ensures |Within(m[id := t], from, to)| == |Within(m, from, to)| + (if from <= t <= to then 1 else 0)
  {
    assert Within(m[id := t], from, to) == Within(m, from, to) + (if from <= t <= to then {id} else {});
  }

  lemma CallsAppend(h: seq<Call>, c: Call)
    ensures Admitted(h + [c]) == Admitted(h) + (if c.admitted then 1 else 0)
    ensures forall from, to :: AdmittedBetween(h + [c], from, to)
                 == AdmittedBetween(h, from, to) + (if c.admitted && from <= c.time <= to then 1 else 0)
  {
    assert Front(h + [c]) == h;
  }

  lemma LimiterKeeps(s: State, now: real)
    requires LimiterOk(s) && LastInstant(s.filledAt, s.calls) <= now
    ensures LimiterOk(s.(calls := s.calls + [Call(now, Answer(s, now))]))
  {
    var lim := if s.limiter.Bucket? then Limit(s.limiter) else Steady(0.0, 0.0);
    AppendCall(lim, s.filledAt, s.calls, Call(now, Answer(s, now)));
  }

  lemma StepLimiter(s: State, id: Sid, e: Event, now: real)
    requires LimiterOk(s) && Enabled(s, Step(id, e, now))
    ensures LimiterOk(Next(s, Step(id, e, now)))
  {
    LimiterKeeps(s, now);
  }

  lemma StepSessions(s: State, id: Sid, e: Event, now: real)
    requires SessionsOk(s) && Enabled(s, Step(id, e, now))
    ensures SessionsOk(Next(s, Step(id, e, now)))
  {
    HandleKeepsFlag(s.sessions[id], e, Answer(s, now));
    HandleKeepsSocket(s.sessions[id], e, Answer(s, now));
    HandleKeepsWork(s.sessions[id], e, Answer(s, now));
  }

  lemma CountGrant(s: State, id: Sid, now: real)
    requires Counted(s) && id !in s.granted && LastInstant(s.filledAt, s.calls) <= now
    ensures Counted(s.(calls := s.calls + [Call(now, true)], granted := s.granted[id := now]))
  {
    CallsAppend(s.calls, Call(now, true));
    forall from, to
      ensures |Within(s.granted[id := now], from, to)| == AdmittedBetween(s.calls + [Call(now, true)], from, to)
    {
      WithinAdds(s.granted, id, now, from, to);
    }
  }

  lemma CountRefusal(s: State, now: real)
    requires Counted(s) && LastInstant(s.filledAt, s.calls) <= now
    ensures Counted(s.(calls := s.calls + [Call(now, false)]))
  {
    CallsAppend(s.calls, Call(now, false));
  }

  lemma StepCounts(s: State, id: Sid, e: Event, now: real)
    requires Counted(s) && Recorded(s) && SessionsOk(s) && Enabled(s, Step(id, e, now))
    ensures Counted(Next(s, Step(id, e, now)))
  {
    assert RecordedAt(s, id);
    if Asks(s.sessions[id], e) {
      if Answer(s, now) {
        CountGrant(s, id, now);
      } else {
        CountRefusal(s, now);
      }
    }
  }

  /** A handler makes a session granted by asking, and started by starting, and in no other way. */
  lemma HandleRecords(st: Session, e: Event, allowed: bool)
    requires WorkOk(st) && CanHandle(st, e)
    ensures var reply := Handle(st, e, allowed).reply;
            && (IsGranted(reply) <==> IsGranted(st.reply) || (Asks(st, e) && allowed))
            && (IsStarted(reply) <==> IsStarted(st.reply) || Starts(st, e))
    ensures Starts(st, e) ==> IsGranted(st.reply) && !Asks(st, e)
  {
  }

  /** Records stay in step with the replies when one session moves on. */
  lemma RecordStep(s: State, s': State, id: Sid, grants: bool, starts: bool, now: real)
    requires Recorded(s) && Counted(s) && LastInstant(s.filledAt, s.calls) <= now
    requires id in s.sessions && id in s'.sessions && s'.sessions == s.sessions[id := s'.sessions[id]]
    requires IsGranted(s'.sessions[id].reply) <==> IsGranted(s.sessions[id].reply) || grants
    requires IsStarted(s'.sessions[id].reply) <==> IsStarted(s.sessions[id].reply) || starts
    requires starts ==> IsGranted(s.sessions[id].reply) && !grants
    requires grants ==> !IsGranted(s.sessions[id].reply)
    requires s'.granted == if grants then s.granted[id := now] else s.granted
    requires s'.starts == if starts then s.starts[id := now] else s.starts
    ensures Recorded(s')
  {
    forall x: Sid
      ensures RecordedAt(s', x)
    {
      assert RecordedAt(s, x);
    }
  }

  lemma StepRecords(s: State, id: Sid, e: Event, now: real)
    requires Counted(s) && Recorded(s) && SessionsOk(s) && Enabled(s, Step(id, e, now))
    ensures Recorded(Next(s, Step(id, e, now)))
  {
    var st, allowed := s.sessions[id], Answer(s, now);
    assert RecordedAt(s, id);
    HandleWork(st, e, allowed);
    HandleRecords(st, e, allowed);
    RecordStep(s, Next(s, Step(id, e, now)), id, Asks(st, e) && allowed, Starts(st, e), now);
  }

  lemma StepKeeps(s: State, id: Sid, e: Event, now: real)
    requires Inv(s) && Enabled(s, Step(id, e, now))
    ensures Inv(Next(s, Step(id, e, now)))
  {
    StepLimiter(s, id, e, now);
    StepSessions(s, id, e, now);
    StepCounts(s, id, e, now);
    StepRecords(s, id, e, now);
  }

  lemma NextKeeps(s: State, a: Action)
    requires Inv(s) && Enabled(s, a)
    ensures Inv(Next(s, a))
    ensures Next(s, a).limiter == s.limiter && Next(s, a).filledAt == s.filledAt
  {
    match a
    case Open(id) => OpenKeeps(s, id);
    case Step(id, e, now) => StepKeeps(s, id, e, now);
  }

  lemma {:induction false} Reachable(limiter: Limiter, start: real, schedule: seq<Action>)
    requires Exec(limiter, start, schedule).Some?
    ensures var s := Exec(limiter, start, schedule).value;
            Inv(s) && s.limiter == limiter && s.filledAt == start
  {
    if schedule != [] {
      Reachable(limiter, start, schedule[..|schedule| - 1]);
      NextKeeps(Exec(limiter, start, schedule[..|schedule| - 1]).value, schedule[|schedule| - 1]);
    }
  }

  lemma ExecStep(limiter: Limiter, start: real, schedule: seq<Action>, a: Action)
    requires Exec(limiter, start, schedule).Some? && Enabled(Exec(limiter, start, schedule).value, a)
    ensures Exec(limiter, start, schedule + [a]) == Some(Next(Exec(limiter, start, schedule).value, a))
  {
    assert (schedule + [a])[..|schedule|] == schedule;
  }

  // ---------------------------------------------------------------- What it gives

  /**
   Over every interleaving of any number of sessions: the requests granted in any window,
   by the clock that `allow()` read, are at most burst + rate * length.
   */
  lemma GlobalThrottle(rate: NonNegative, burst: NonNegative, start: real, schedule: seq<Action>, from: real, to: real)
    requires Exec(Bucket(rate, burst), start, schedule).Some? && from <= to
    ensures var s := Exec(Bucket(rate, burst), start, schedule).value;
            |Within(s.granted, from, to)| as real <= burst + rate * (to - from)
  {
    Reachable(Bucket(rate, burst), start, schedule);
    GrantsWithinRate(Exec(Bucket(rate, burst), start, schedule).value, rate, burst, from, to);
  }

  lemma GrantsWithinWindow(s: State, from: real, to: real)
    requires Inv(s) && s.limiter.Bucket? && from <= to
    ensures |Within(s.granted, from, to)| as real <= WindowBound(Limit(s.limiter), from, to)
  {
    SteadyRises(s.limiter.rate, s.limiter.burst);
    BucketIsCompliant(Limit(s.limiter), s.filledAt, s.calls);
    assert AdmittedBetween(s.calls, from, to) as real <= WindowBound(Limit(s.limiter), from, to);
  }

  lemma GrantsWithinRate(s: State, rate: NonNegative, burst: NonNegative, from: real, to: real)
    requires Inv(s) && s.limiter == Bucket(rate, burst) && from <= to
    ensures |Within(s.granted, from, to)| as real <= burst + rate * (to - from)
  {
    GrantsWithinWindow(s, from, to);
    SteadyBound(rate, burst, from, to);
  }

  /** No reply or upstream session starts later than `delay` after its grant. */
  ghost predicate Prompt(s: State, delay: real) {
    forall id :: id in s.starts && id in s.granted ==> s.starts[id] - s.granted[id] <= delay
  }

  /**
   A granted reply starts in a handler of its own, later. With starts delayed by at most
   `from - early`, the health replies and upstream sessions started in a window are at most
   burst + rate * (to - early), which is the length of the window and the delay.
   */
  lemma StartsWithinDelay(rate: NonNegative, burst: NonNegative, start: real, schedule: seq<Action>,
                          early: real, from: real, to: real)
    requires Exec(Bucket(rate, burst), start, schedule).Some? && early <= from <= to
    requires Prompt(Exec(Bucket(rate, burst), start, schedule).value, from - early)
    ensures var s := Exec(Bucket(rate, burst), start, schedule).value;
            |Within(s.starts, from, to)| as real <= burst + rate * (to - early)
  {
    Reachable(Bucket(rate, burst), start, schedule);
    StartsSince(Exec(Bucket(rate, burst), start, schedule).value, rate, burst, early, from, to);
  }

  /** What started in a window was granted in the window that opens earlier by the delay. */
  lemma StartsWithinWindow(s: State, early: real, from: real, to: real)
    requires Inv(s) && s.limiter.Bucket? && early <= from <= to && Prompt(s, from - early)
    ensures |Within(s.starts, from, to)| as real <= WindowBound(Limit(s.limiter), early, to)
  {
    GrantsWithinWindow(s, early, to);
    forall id | id in Within(s.starts, from, to)
      ensures id in Within(s.granted, early, to)
    {
      assert RecordedAt(s, id);
    }
    SubsetSize(Within(s.starts, from, to), Within(s.granted, early, to));
  }

  lemma StartsSince(s: State, rate: NonNegative, burst: NonNegative, early: real, from: real, to: real)
    requires Inv(s) && s.limiter == Bucket(rate, burst) && early <= from <= to && Prompt(s, from - early)
    ensures |Within(s.starts, from, to)| as real <= burst + rate * (to - early)
  {
    StartsWithinWindow(s, early, from, to);
    SteadyBound(rate, burst, early, to);
  }

  lemma {:induction false} SubsetSize(a: set<Sid>, b: set<Sid>)
    requires a <= b
    ensures |a| <= |b|
  {
    assert b == a + (b - a);
  }

  /**
   Over the run, the granted sessions are one for one the calls that `allow()` granted, and
   what was started was granted before; each session asks at most once and each parsed
   request gets exactly one answer, never a refusal when there is no limit.
   */
  lemma OneGrantEach(limiter: Limiter, start: real, schedule: seq<Action>)
    requires Exec(limiter, start, schedule).Some?
    ensures var s := Exec(limiter, start, schedule).value;
            && |s.granted| == Admitted(s.calls) && s.starts.Keys <= s.granted.Keys
            && (forall id :: id in s.starts ==> s.granted[id] <= s.starts[id])
            && forall id :: id in s.sessions ==>
                 var st := s.sessions[id];
                 && st.work == Tally(st.reply)
                 && st.work.asked == st.work.parsed == (if st.reply.NoReply? then 0 else 1)
                 && st.work.refused + st.work.health + st.work.upstream == st.work.parsed
                 && (id in s.granted <==> st.work.health + st.work.upstream == 1)
                 && (id in s.starts <==> id in s.granted && !st.reply.Pending?)
                 && (limiter.Unlimited? ==> st.work.refused == 0)
  {
    Reachable(limiter, start, schedule);
    var s := Exec(limiter, start, schedule).value;
    forall id: Sid
      ensures id in s.starts ==> id in s.granted && s.granted[id] <= s.starts[id]
      ensures id in s.sessions ==> (id in s.granted <==> IsGranted(s.sessions[id].reply))
      ensures id in s.sessions ==> (id in s.starts <==> IsStarted(s.sessions[id].reply))
    {
      assert RecordedAt(s, id);
    }
    if limiter.Unlimited? {
      UnlimitedNeverRefuses(start, schedule);
    }
  }

  lemma {:induction false} UnlimitedNeverRefuses(start: real, schedule: seq<Action>)
    requires Exec(Unlimited, start, schedule).Some?
    ensures var s := Exec(Unlimited, start, schedule).value;
            s.limiter == Unlimited && forall id :: id in s.sessions ==> s.sessions[id].work.refused == 0
  {
    if schedule != [] {
      UnlimitedNeverRefuses(start, schedule[..|schedule| - 1]);
      UnlimitedStep(Exec(Unlimited, start, schedule[..|schedule| - 1]).value, schedule[|schedule| - 1]);
    }
  }

  lemma UnlimitedStep(s: State, a: Action)
    requires Enabled(s, a) && s.limiter == Unlimited
    requires forall id :: id in s.sessions ==> s.sessions[id].work.refused == 0
    ensures Next(s, a).limiter == Unlimited
    ensures forall id :: id in Next(s, a).sessions ==> Next(s, a).sessions[id].work.refused == 0
  {
    match a
    case Open(_) =>
    case Step(id, e, now) => HandleRefuses(s.sessions[id], e);
  }

  lemma HandleRefuses(st: Session, e: Event)
    requires CanHandle(st, e)
    ensures Handle(st, e, true).work.refused == st.work.refused
  {
  }

  /** At every moment of every run, a raised flag means a closed socket or a 408 being written. */
  lemma FlagClosesSocket(limiter: Limiter, start: real, schedule: seq<Action>, id: Sid)
    requires Exec(limiter, start, schedule).Some? && id in Exec(limiter, start, schedule).value.sessions
    ensures var st := Exec(limiter, start, schedule).value.sessions[id];
            && (st.stopped ==> st.closed || st.timeout.Writing?)
            && (st.closed ==> st.stopped || st.reply == Over(Upstream))
  {
    Reachable(limiter, start, schedule);
  }

  lemma {:induction false} Prefix(limiter: Limiter, start: real, schedule: seq<Action>, n: nat)
    requires Exec(limiter, start, schedule).Some? && n <= |schedule|
    ensures Exec(limiter, start, schedule[..n]).Some?
    decreases |schedule|
  {
    if n < |schedule| {
      assert schedule[..|schedule| - 1][..n] == schedule[..n];
      Prefix(limiter, start, schedule[..|schedule| - 1], n);
    } else {
      assert schedule[..n] == schedule;
    }
  }

  /** The session before step k of a run, if it was there. */
  ghost function Before(limiter: Limiter, start: real, schedule: seq<Action>, k: nat, id: Sid): Option<Session>
    requires k <= |schedule|
  {
    match Exec(limiter, start, schedule[..k])
    case None => None
    case Some(s) => if id in s.sessions then Some(s.sessions[id]) else None
  }

  /** Step k of the run flips the stop flag of session `id`. */
  ghost predicate FlipsAt(limiter: Limiter, start: real, schedule: seq<Action>, k: nat, id: Sid) {
    && k < |schedule|
    && var st, st' := Before(limiter, start, schedule, k, id), Before(limiter, start, schedule, k + 1, id);
       st.Some? && st'.Some? && !st.value.stopped && st'.value.stopped
  }

  /** Step k of the run begins a 408 of session `id`. */
  ghost predicate RepliesAt(limiter: Limiter, start: real, schedule: seq<Action>, k: nat, id: Sid) {
    && k < |schedule|
    && var st, st' := Before(limiter, start, schedule, k, id), Before(limiter, start, schedule, k + 1, id);
       st.Some? && st'.Some? && st.value.replies408 != st'.value.replies408
  }

  lemma SessionStep(s: State, a: Action, id: Sid)
    requires Enabled(s, a) && id in s.sessions && WorkOk(s.sessions[id])
    ensures id in Next(s, a).sessions
    ensures var st, st' := s.sessions[id], Next(s, a).sessions[id];
            && (st.stopped ==> st'.stopped) && (st.closed ==> st'.closed)
            && (st'.replies408 != st.replies408 ==> !st.stopped && st'.stopped)
            && (st.stopped ==> st'.work == st.work && TakenOn(st.reply, st'.reply))
  {
    if a.Step? && a.sid == id {
      HandleFacts(s.sessions[id], a.event, Answer(s, a.now));
    }
  }

  lemma HandleFacts(st: Session, e: Event, allowed: bool)
    requires WorkOk(st) && CanHandle(st, e)
    ensures var st' := Handle(st, e, allowed);
            && (st.stopped ==> st'.stopped) && (st.closed ==> st'.closed)
            && (st'.replies408 != st.replies408 ==> !st.stopped && st'.stopped)
            && (st.stopped ==> st'.work == st.work && TakenOn(st.reply, st'.reply))
  {
    OnlyTheFlipReplies(st, e, allowed);
    HandleWork(st, e, allowed);
  }

  /**
   Once the flag of a session has flipped, however the run goes on, it stays up: no request
   is parsed, no token asked for, no 408 begun and no reply or upstream session chosen; one
   that had been chosen before may still be carried out.
   */
  lemma {:induction false} StoppedDoesNoWork(limiter: Limiter, start: real, schedule: seq<Action>, more: seq<Action>, id: Sid)
    requires Exec(limiter, start, schedule).Some? && Exec(limiter, start, schedule + more).Some?
    requires id in Exec(limiter, start, schedule).value.sessions
    requires Exec(limiter, start, schedule).value.sessions[id].stopped
    ensures id in Exec(limiter, start, schedule + more).value.sessions
    ensures var st := Exec(limiter, start, schedule).value.sessions[id];
            var st' := Exec(limiter, start, schedule + more).value.sessions[id];
            && st'.stopped && (st.closed ==> st'.closed)
            && st'.work == st.work && st'.replies408 == st.replies408 && TakenOn(st.reply, st'.reply)
    decreases |more|
  {
    var all := schedule + more;
    if more == [] {
      assert all == schedule;
    } else {
      var front := more[..|more| - 1];
      assert all[..|all| - 1] == schedule + front;
      StoppedDoesNoWork(limiter, start, schedule, front, id);
      Reachable(limiter, start, schedule + front);
      SessionStep(Exec(limiter, start, schedule + front).value, more[|more| - 1], id);
    }
  }

  /** An upstream response that was handed over leaves the socket closed, however the run goes on. */
  lemma {:induction false} RelayCloses(limiter: Limiter, start: real, schedule: seq<Action>, id: Sid, now: real, more: seq<Action>)
    requires Exec(limiter, start, schedule).Some? && id in Exec(limiter, start, schedule).value.sessions
    requires Exec(limiter, start, schedule).value.sessions[id].reply == Running(Upstream)
    requires Exec(limiter, start, schedule + [Step(id, ReplyEnds(true), now)] + more).Some?
    ensures id in Exec(limiter, start, schedule + [Step(id, ReplyEnds(true), now)] + more).value.sessions
    ensures Exec(limiter, start, schedule + [Step(id, ReplyEnds(true), now)] + more).value.sessions[id].closed
    decreases |more|
  {
    var ended := schedule + [Step(id, ReplyEnds(true), now)];
    var all := ended + more;
    if more == [] {
      assert all == ended && all[..|all| - 1] == schedule;
      ReplyProceeds(Exec(limiter, start, schedule).value.sessions[id], true);
    } else {
      var front := more[..|more| - 1];
      assert all[..|all| - 1] == ended + front;
      RelayCloses(limiter, start, schedule, id, now, front);
      Reachable(limiter, start, ended + front);
      SessionStep(Exec(limiter, start, ended + front).value, more[|more| - 1], id);
    }
  }

  // ---------------------------------------------------------------- What can still happen

  /** The header timer may still elapse: it is to be started, or it runs, or it has elapsed and its coroutine waits. */
  predicate TimerToCome(st: Session) {
    !st.started || st.armed || st.timeout == Spawned(Elapsed)
  }

  /** The header may still arrive. */
  predicate HeaderToCome(st: Session) {
    !st.started || st.reading
  }

  /** A 408 is begun between the end of a run and the end of a longer one. */
  ghost predicate TimesOutLater(limiter: Limiter, start: real, schedule: seq<Action>, more: seq<Action>, id: Sid) {
    && Exec(limiter, start, schedule).Some? && Exec(limiter, start, schedule + more).Some?
    && var s, s' := Exec(limiter, start, schedule).value, Exec(limiter, start, schedule + more).value;
       id in s.sessions && id in s'.sessions && s'.sessions[id].replies408 > s.sessions[id].replies408
  }

  /** A request is parsed in between. */
  ghost predicate ParsesLater(limiter: Limiter, start: real, schedule: seq<Action>, more: seq<Action>, id: Sid) {
    && Exec(limiter, start, schedule).Some? && Exec(limiter, start, schedule + more).Some?
    && var s, s' := Exec(limiter, start, schedule).value, Exec(limiter, start, schedule + more).value;
       id in s.sessions && id in s'.sessions && s'.sessions[id].work.parsed > s.sessions[id].work.parsed
  }

  lemma HandlePasses(st: Session, e: Event, allowed: bool)
    requires CanHandle(st, e)
    ensures var st' := Handle(st, e, allowed);
            && (!TimerToCome(st) ==> !TimerToCome(st') && st'.replies408 == st.replies408)
            && (!HeaderToCome(st) ==> !HeaderToCome(st') && st'.work.parsed == st.work.parsed)
  {
  }

  lemma StepPasses(s: State, a: Action, id: Sid)
    requires Enabled(s, a) && id in s.sessions
    ensures id in Next(s, a).sessions
    ensures var st, st' := s.sessions[id], Next(s, a).sessions[id];
            && (!TimerToCome(st) ==> !TimerToCome(st') && st'.replies408 == st.replies408)
            && (!HeaderToCome(st) ==> !HeaderToCome(st') && st'.work.parsed == st.work.parsed)
  {
    if a.Step? && a.sid == id {
      HandlePasses(s.sessions[id], a.event, Answer(s, a.now));
    }
  }

  /** Once the timer, or the header, has passed, it never comes. */
  lemma {:induction false} Passed(limiter: Limiter, start: real, schedule: seq<Action>, more: seq<Action>, id: Sid)
    requires Exec(limiter, start, schedule).Some? && Exec(limiter, start, schedule + more).Some?
    requires id in Exec(limiter, start, schedule).value.sessions
    ensures id in Exec(limiter, start, schedule + more).value.sessions
    ensures var st := Exec(limiter, start, schedule).value.sessions[id];
            var st' := Exec(limiter, start, schedule + more).value.sessions[id];
            && (!TimerToCome(st) ==> !TimerToCome(st') && st'.replies408 == st.replies408)
            && (!HeaderToCome(st) ==> !HeaderToCome(st') && st'.work.parsed == st.work.parsed)
    decreases |more|
  {
    var all := schedule + more;
    if more == [] {
      assert all == schedule;
    } else {
      var front := more[..|more| - 1];
      assert all[..|all| - 1] == schedule + front;
      Passed(limiter, start, schedule, front, id);
      StepPasses(Exec(limiter, start, schedule + front).value, more[|more| - 1], id);
    }
  }

  /** One handler more, now. */
  lemma Then(limiter: Limiter, start: real, schedule: seq<Action>, more: seq<Action>, id: Sid, e: Event) returns (longer: seq<Action>)
    requires Exec(limiter, start, schedule + more).Some? && id in Exec(limiter, start, schedule + more).value.sessions
    requires CanHandle(Exec(limiter, start, schedule + more).value.sessions[id], e)
    ensures Exec(limiter, start, schedule + longer).Some?
    ensures var s := Exec(limiter, start, schedule + more).value;
            var s' := Exec(limiter, start, schedule + longer).value;
            id in s'.sessions && s'.sessions[id] == Handle(s.sessions[id], e, Answer(s, LastInstant(s.filledAt, s.calls)))
  {
    var s := Exec(limiter, start, schedule + more).value;
    var a := Step(id, e, LastInstant(s.filledAt, s.calls));
    ExecStep(limiter, start, schedule + more, a);
    longer := more + [a];
    assert schedule + longer == schedule + more + [a];
  }

  lemma CanTimeOut(limiter: Limiter, start: real, schedule: seq<Action>, id: Sid) returns (more: seq<Action>)
    requires Exec(limiter, start, schedule).Some? && id in Exec(limiter, start, schedule).value.sessions
    requires var st := Exec(limiter, start, schedule).value.sessions[id]; !st.stopped && TimerToCome(st)
    ensures TimesOutLater(limiter, start, schedule, more, id)
  {
    var st := Exec(limiter, start, schedule).value.sessions[id];
    more := [];
    assert schedule + more == schedule;
    if !st.started {
      more := Then(limiter, start, schedule, more, id, Start(true));
    }
    if st.timeout != Spawned(Elapsed) {
      more := Then(limiter, start, schedule, more, id, TimerHandler(Elapsed));
    }
    more := Then(limiter, start, schedule, more, id, TimeoutRuns);
  }

  /** A 408 can still be begun exactly when the flag is down and the header timer may still elapse. */
  lemma TimeoutStillPossible(limiter: Limiter, start: real, schedule: seq<Action>, id: Sid)
    requires Exec(limiter, start, schedule).Some? && id in Exec(limiter, start, schedule).value.sessions
    ensures var st := Exec(limiter, start, schedule).value.sessions[id];
            (exists more :: TimesOutLater(limiter, start, schedule, more, id)) <==>
            !st.stopped && (!st.started || st.armed || st.timeout == Spawned(Elapsed))
  {
    var st := Exec(limiter, start, schedule).value.sessions[id];
    if more :| TimesOutLater(limiter, start, schedule, more, id) {
      Passed(limiter, start, schedule, more, id);
      if st.stopped {
        StoppedDoesNoWork(limiter, start, schedule, more, id);
      }
    }
    if !st.stopped && TimerToCome(st) {
      var more := CanTimeOut(limiter, start, schedule, id);
    }
  }

  lemma CanParse(limiter: Limiter, start: real, schedule: seq<Action>, id: Sid) returns (more: seq<Action>)
    requires Exec(limiter, start, schedule).Some? && id in Exec(limiter, start, schedule).value.sessions
    requires var st := Exec(limiter, start, schedule).value.sessions[id]; !st.stopped && HeaderToCome(st)
    ensures ParsesLater(limiter, start, schedule, more, id)
  {
    more := [];
    assert schedule + more == schedule;
    if !Exec(limiter, start, schedule).value.sessions[id].started {
      more := Then(limiter, start, schedule, more, id, Start(true));
    }
    more := Then(limiter, start, schedule, more, id, HeaderRead(true, false));
  }

  /** A request can still be parsed exactly when the flag is down and the header may still arrive. */
  lemma RequestStillPossible(limiter: Limiter, start: real, schedule: seq<Action>, id: Sid)
    requires Exec(limiter, start, schedule).Some? && id in Exec(limiter, start, schedule).value.sessions
    ensures var st := Exec(limiter, start, schedule).value.sessions[id];
            (exists more :: ParsesLater(limiter, start, schedule, more, id)) <==>
            !st.stopped && (!st.started || st.reading)
  {
    var st := Exec(limiter, start, schedule).value.sessions[id];
    if more :| ParsesLater(limiter, start, schedule, more, id) {
      Passed(limiter, start, schedule, more, id);
      if st.stopped {
        StoppedDoesNoWork(limiter, start, schedule, more, id);
      }
    }
    if !st.stopped && HeaderToCome(st) {
      var more := CanParse(limiter, start, schedule, id);
    }
  }

  predicate Begun(reply: Reply) {
    reply.Running? || reply.Over?
  }

  /** The reply of a session has not begun by the end of a run, and has by the end of a longer one. */
  ghost predicate BeginsLater(limiter: Limiter, start: real, schedule: seq<Action>, more: seq<Action>, id: Sid) {
    && Exec(limiter, start, schedule).Some? && Exec(limiter, start, schedule + more).Some?
    && var s, s' := Exec(limiter, start, schedule).value, Exec(limiter, start, schedule + more).value;
       && id in s.sessions && id in s'.sessions
       && !Begun(s.sessions[id].reply) && Begun(s'.sessions[id].reply)
  }

  /** The same for a health reply or an upstream session, which the record of starts shows. */
  ghost predicate StartsLater(limiter: Limiter, start: real, schedule: seq<Action>, more: seq<Action>, id: Sid) {
    && Exec(limiter, start, schedule).Some? && Exec(limiter, start, schedule + more).Some?
    && id !in Exec(limiter, start, schedule).value.starts && id in Exec(limiter, start, schedule + more).value.starts
  }

  lemma ReplyCanRun(limiter: Limiter, start: real, schedule: seq<Action>, id: Sid) returns (more: seq<Action>)
    requires Exec(limiter, start, schedule).Some? && id in Exec(limiter, start, schedule).value.sessions
    requires Exec(limiter, start, schedule).value.sessions[id].reply.Pending?
    ensures BeginsLater(limiter, start, schedule, more, id)
    ensures !Exec(limiter, start, schedule).value.sessions[id].reply.kind.Refusal? ==>
              StartsLater(limiter, start, schedule, more, id)
  {
    var s := Exec(limiter, start, schedule).value;
    var a := Step(id, ReplyRuns, LastInstant(s.filledAt, s.calls));
    Reachable(limiter, start, schedule);
    assert RecordedAt(s, id);
    ExecStep(limiter, start, schedule, a);
    more := [a];
  }

  lemma OnlyPendingBegins(limiter: Limiter, start: real, schedule: seq<Action>, more: seq<Action>, id: Sid)
    requires Exec(limiter, start, schedule).Some? && id in Exec(limiter, start, schedule).value.sessions
    requires Exec(limiter, start, schedule).value.sessions[id].stopped
    ensures BeginsLater(limiter, start, schedule, more, id) ==>
              Exec(limiter, start, schedule).value.sessions[id].reply.Pending?
    ensures StartsLater(limiter, start, schedule, more, id) ==>
              var reply := Exec(limiter, start, schedule).value.sessions[id].reply;
              reply.Pending? && !reply.kind.Refusal?
  {
    if Exec(limiter, start, schedule + more).Some? {
      StoppedDoesNoWork(limiter, start, schedule, more, id);
      Reachable(limiter, start, schedule);
      Reachable(limiter, start, schedule + more);
      assert RecordedAt(Exec(limiter, start, schedule).value, id);
      assert RecordedAt(Exec(limiter, start, schedule + more).value, id);
    }
  }

  /**
   What a stop leaves to be done: after the flip, a reply can still begin exactly when it was
   pending, and a health reply or upstream session can still start exactly when it was pending
   and granted.
   */
  lemma AfterTheFlip(limiter: Limiter, start: real, schedule: seq<Action>, id: Sid)
    requires Exec(limiter, start, schedule).Some? && id in Exec(limiter, start, schedule).value.sessions
    requires Exec(limiter, start, schedule).value.sessions[id].stopped
    ensures var reply := Exec(limiter, start, schedule).value.sessions[id].reply;
            && ((exists more :: BeginsLater(limiter, start, schedule, more, id)) <==> reply.Pending?)
            && ((exists more :: StartsLater(limiter, start, schedule, more, id)) <==> reply.Pending? && !reply.kind.Refusal?)
  {
    forall more
      ensures BeginsLater(limiter, start, schedule, more, id) ==>
                Exec(limiter, start, schedule).value.sessions[id].reply.Pending?
      ensures StartsLater(limiter, start, schedule, more, id) ==>
                var reply := Exec(limiter, start, schedule).value.sessions[id].reply;
                reply.Pending? && !reply.kind.Refusal?
    {
      OnlyPendingBegins(limiter, start, schedule, more, id);
    }
    if Exec(limiter, start, schedule).value.sessions[id].reply.Pending? {
      var more := ReplyCanRun(limiter, start, schedule, id);
    }
  }

  /** A flag that has flipped at step j has not fallen by step k. */
  lemma FlipStays(limiter: Limiter, start: real, schedule: seq<Action>, j: nat, k: nat, id: Sid)
    requires Exec(limiter, start, schedule).Some? && j < k < |schedule|
    requires FlipsAt(limiter, start, schedule, j, id)
    ensures !FlipsAt(limiter, start, schedule, k, id)
  {
    Prefix(limiter, start, schedule, k);
    assert schedule[..k] == schedule[..j + 1] + schedule[j + 1..k];
    StoppedDoesNoWork(limiter, start, schedule[..j + 1], schedule[j + 1..k], id);
  }

  /** A step that begins a 408 flips the flag, and is the coroutine of an elapsed timer. */
  lemma ReplyIsFlip(limiter: Limiter, start: real, schedule: seq<Action>, k: nat, id: Sid)
    requires Exec(limiter, start, schedule).Some? && RepliesAt(limiter, start, schedule, k, id)
    ensures FlipsAt(limiter, start, schedule, k, id)
    ensures schedule[k].Step? && schedule[k].sid == id && schedule[k].event == TimeoutRuns
  {
    Prefix(limiter, start, schedule, k + 1);
    assert schedule[..k + 1][..k] == schedule[..k] && schedule[..k + 1][k] == schedule[k];
    Reachable(limiter, start, schedule[..k]);
    var s := Exec(limiter, start, schedule[..k]).value;
    SessionStep(s, schedule[k], id);
    if schedule[k].Step? {
      OnlyTheFlipReplies(s.sessions[schedule[k].sid], schedule[k].event, Answer(s, schedule[k].now));
    }
  }

  lemma NewIsIdle(s: State, a: Action, id: Sid)
    requires Enabled(s, a) && id !in s.sessions && id in Next(s, a).sessions
    ensures Next(s, a).sessions[id] == NEW_SESSION
  {
  }

  lemma AppearsIdle(limiter: Limiter, start: real, schedule: seq<Action>, k: nat, id: Sid)
    requires k < |schedule| && Before(limiter, start, schedule, k + 1, id).Some?
    requires Before(limiter, start, schedule, k, id).None?
    ensures Before(limiter, start, schedule, k + 1, id) == Some(NEW_SESSION)
  {
    assert schedule[..k + 1][..k] == schedule[..k];
    NewIsIdle(Exec(limiter, start, schedule[..k]).value, schedule[k], id);
  }

  /** A 408 that was begun before step n was begun at some step. */
  lemma {:induction false} ReplyHasStep(limiter: Limiter, start: real, schedule: seq<Action>, n: nat, id: Sid)
    returns (k: nat)
    requires n <= |schedule| && Before(limiter, start, schedule, n, id).Some?
    requires Before(limiter, start, schedule, n, id).value.replies408 > 0
    ensures k < n && RepliesAt(limiter, start, schedule, k, id)
  {
    k := n - 1;
    var st := Before(limiter, start, schedule, k, id);
    if st.None? {
      AppearsIdle(limiter, start, schedule, k, id);
    } else if st.value.replies408 > 0 && !RepliesAt(limiter, start, schedule, k, id) {
      k := ReplyHasStep(limiter, start, schedule, k, id);
    }
  }

  /**
   In every ordering of header arrival, timer, timeout coroutine and stop() calls, among any
   other sessions: at most one step flips the flag, at most one begins a 408, and it is the
   step that flips the flag.
   */
  lemma StopFlagFlipsOnce(limiter: Limiter, start: real, schedule: seq<Action>, id: Sid)
    requires Exec(limiter, start, schedule).Some? && id in Exec(limiter, start, schedule).value.sessions
    ensures forall j, k :: FlipsAt(limiter, start, schedule, j, id) && FlipsAt(limiter, start, schedule, k, id) ==> j == k
    ensures forall k :: RepliesAt(limiter, start, schedule, k, id) ==> FlipsAt(limiter, start, schedule, k, id)
    ensures var st := Exec(limiter, start, schedule).value.sessions[id];
            && st.flips == (if st.stopped then 1 else 0)
            && st.replies408 <= 1
            && (st.replies408 == 1 <==> exists k :: RepliesAt(limiter, start, schedule, k, id))
  {
    Reachable(limiter, start, schedule);
    forall j, k | FlipsAt(limiter, start, schedule, j, id) && FlipsAt(limiter, start, schedule, k, id)
      ensures j == k
    {
      if j < k {
        FlipStays(limiter, start, schedule, j, k, id);
      } else if k < j {
        FlipStays(limiter, start, schedule, k, j, id);
      }
    }
    forall k | RepliesAt(limiter, start, schedule, k, id)
      ensures FlipsAt(limiter, start, schedule, k, id)
      ensures Exec(limiter, start, schedule).value.sessions[id].replies408 == 1
    {
      ReplyIsFlip(limiter, start, schedule, k, id);
      ReplyStays(limiter, start, schedule, k, id);
    }
    if Exec(limiter, start, schedule).value.sessions[id].replies408 == 1 {
      assert schedule[..|schedule|] == schedule;
      var k := ReplyHasStep(limiter, start, schedule, |schedule|, id);
    }
  }

  lemma FlagsOk(limiter: Limiter, start: real, schedule: seq<Action>, id: Sid)
    requires Exec(limiter, start, schedule).Some? && id in Exec(limiter, start, schedule).value.sessions
    ensures FlagOk(Exec(limiter, start, schedule).value.sessions[id])
  {
    Reachable(limiter, start, schedule);
  }

  lemma OneReply(st: Session, st': Session)
    requires FlagOk(st) && FlagOk(st') && !st.stopped && st'.replies408 != st.replies408
    ensures st'.replies408 == 1
  {
  }

  lemma ReplyStays(limiter: Limiter, start: real, schedule: seq<Action>, k: nat, id: Sid)
    requires Exec(limiter, start, schedule).Some? && RepliesAt(limiter, start, schedule, k, id)
    ensures id in Exec(limiter, start, schedule).value.sessions
    ensures Exec(limiter, start, schedule).value.sessions[id].replies408 == 1
  {
    ReplyIsFlip(limiter, start, schedule, k, id);
    FlagsOk(limiter, start, schedule[..k], id);
    FlagsOk(limiter, start, schedule[..k + 1], id);
    OneReply(Before(limiter, start, schedule, k, id).value, Before(limiter, start, schedule, k + 1, id).value);
    assert schedule == schedule[..k + 1] + schedule[k + 1..];
    StoppedDoesNoWork(limiter, start, schedule[..k + 1], schedule[k + 1..], id);
  }
}

/** The session object: the fields its handlers change, and the handlers. */
module HttpSessions {
  import opened RateLimiting
  import opened TokenBuckets
  import opened HttpRequests
  import opened HttpResponses
  import opened Forwarding
  import opened SessionProtocol
  import Text
  import Wrappers

  const HEALTH_TARGET := "/health"

  class HttpSession {
    const limiter: TokenBucket?   // null: no limit
    var stopped: bool
    var reading: bool
    var armed: bool
    var timeout: TimeoutTask
    var closed: bool
    var reply: Reply
    var request: HttpRequest
    var response: string

    ghost var started: bool
    ghost var flips: nat
    ghost var replies408: nat
    ghost var work: Work

    ghost function View(): Session
      reads this
    {
      Session(started, reading, armed, timeout, stopped, closed, reply, flips, replies408, work)
    }

    constructor (limiter: TokenBucket?)
      ensures View() == NEW_SESSION && this.limiter == limiter
    {
      this.limiter := limiter;
      stopped, reading, armed, timeout := false, false, false, NotSpawned;
      closed, reply := false, NoReply;
      request, response := NO_REQUEST, "";
      started, flips, replies408, work := false, 0, 0, NO_WORK;
    }

    /** One-shot: true exactly for the call that flipped the flag. */
    method RequestStop() returns (flipped: bool)
      modifies this`stopped, this`flips
      ensures flipped <==> !old(stopped)
      ensures View() == SessionProtocol.RequestStop(old(View()))
    {
      flipped := !stopped;
      stopped := true;
      if flipped {
        flips := flips + 1;
      }
    }

    method Start(tlsReady: bool)
      requires CanHandle(View(), Event.Start(tlsReady))
      modifies this`started, this`reading, this`armed
      ensures View() == Handle(old(View()), Event.Start(tlsReady), false)
    {
      started := true;
      reading, armed := tlsReady, tlsReady;
    }

    /** The call that flips the flag shuts the socket down. */
    method Stop()
      modifies this`stopped, this`flips, this`closed
      ensures View() == Handle(old(View()), StopRuns, false)
    {
      var flipped := RequestStop();
      if flipped {
        closed := true;
      }
    }

    /** The read of the header has ended; at most one question is put to the shared limiter. */
    method OnHeaderRead(ok: bool, raw: string, now: real) returns (allowed: bool)
      requires CanHandle(View(), HeaderRead(ok, true))
      requires limiter != null ==> limiter.Valid() && limiter.lastRefill <= now
      modifies this`reading, this`request, this`reply, this`work, limiter
      ensures var e := HeaderRead(ok, Parsed(raw).target == HEALTH_TARGET);
              View() == Handle(old(View()), e, allowed)
      ensures limiter == null ==> allowed
      ensures limiter != null ==> limiter.Valid() && limiter.filledAt == old(limiter.filledAt)
      ensures limiter != null && (!ok || old(stopped)) ==> limiter.history == old(limiter.history)
      ensures limiter != null && ok && !old(stopped) ==>
                && limiter.history == old(limiter.history) + [Call(now, allowed)]
                && (allowed <==> WindowsPermit(Steady(limiter.rate, limiter.capacity), old(limiter.history), now))
      ensures ok && !old(stopped) ==>
                reply == Pending(if !allowed then Refusal else if Parsed(raw).target == "/health" then Health else Upstream)
      ensures !ok || old(stopped) ==> reply == old(reply)
      ensures reply == Pending(Upstream) && ok && !old(stopped) ==> request == Parsed(raw)
    {
      reading := false;
      allowed := true;
      if !ok || stopped {
        return;
      }
      var parsed := ParseRequest(raw);
      if limiter != null {
        allowed := limiter.Allow(now);
      }
      if !allowed {
        reply := Pending(Refusal);
      } else if parsed.target == HEALTH_TARGET {
        reply := Pending(Health);
      } else {
        request := parsed;
        reply := Pending(Upstream);
      }
      work := Dispatched(work, reply.kind);
    }

    method OnTimer(ec: TimerCode)
      requires CanHandle(View(), TimerHandler(ec))
      modifies this`armed, this`timeout
      ensures View() == Handle(old(View()), TimerHandler(ec), false)
    {
      armed := false;
      if !ec.Aborted? {
        timeout := Spawned(ec);
      }
    }

    method TimeoutReply() returns (text: string)
      ensures text == PrintedResponse(Generated(RequestTimeout, "Request Timeout", "", TextPlain, Close))
    {
      var reply := GenerateHttpResponse(RequestTimeout, "Request Timeout", "", TextPlain, Close);
      text := ResponseToString(reply);
    }

    /** The coroutine of an elapsed timer, up to the write: true only for the call that flipped the flag. */
    method BeginTimeout() returns (writes: bool)
      requires CanHandle(View(), TimeoutRuns)
      modifies this`timeout, this`stopped, this`closed, this`flips, this`replies408
      ensures View() == Handle(old(View()), TimeoutRuns, false)
      ensures writes <==> replies408 == old(replies408) + 1
    {
      writes := false;
      var ec := timeout.ec;
      timeout := Ended;
      if ec.Aborted? {
        return;
      }
      if ec.Failed? {
        Stop();
        return;
      }
      var flipped := RequestStop();
      if !flipped {
        return;
      }
      timeout := Writing;
      replies408 := replies408 + 1;
      writes := true;
    }

    method OnHeaderTimeout() returns (writes: bool)
      requires CanHandle(View(), TimeoutRuns)
      modifies this
      ensures View() == Handle(old(View()), TimeoutRuns, false)
      ensures writes <==> replies408 == old(replies408) + 1
      ensures if writes then response == PrintedResponse(Generated(RequestTimeout, "Request Timeout", "", TextPlain, Close))
              else response == old(response)
    {
      writes := BeginTimeout();
      ghost var view := View();
      if writes {
        var text := TimeoutReply();
        response := text;
      }
      assert View() == view;
    }

    /** The write of the 408 has ended, well or not. */
    method OnTimeoutWritten()
      requires CanHandle(View(), TimeoutWritten)
      modifies this`timeout, this`closed
      ensures View() == Handle(old(View()), TimeoutWritten, false)
    {
      timeout := Ended;
      closed := true;
    }

    /** The reply that was chosen begins. */
    method TakeOn()
      requires CanHandle(View(), ReplyRuns)
      modifies this`reply
      ensures View() == Handle(old(View()), ReplyRuns, false)
    {
      reply := Running(reply.kind);
    }

    method RefusalText(body: string) returns (text: string)
      ensures text == PrintedResponse(TooManyRequestsReply(body))
    {
      var refusal := GenerateHttpResponse(TooManyRequests, "Too Many Requests", body, ApplicationJson, Close);
      refusal := refusal.(headers := refusal.headers["Retry-After" := "1"]);
      text := ResponseToString(refusal);
    }

    /** The coroutine that answers a refused request; `body` is the formatted status text. */
    method OnRequestDisallow(body: string)
      requires reply == Pending(Refusal)
      modifies this`response, this`reply
      ensures View() == Handle(old(View()), ReplyRuns, false)
      ensures response == PrintedResponse(TooManyRequestsReply(body))
    {
      TakeOn();
      ghost var view := View();
      var text := RefusalText(body);
      response := text;
      assert View() == view;
    }

    method HealthText(body: string) returns (text: string)
      ensures text == PrintedResponse(HealthReply(body))
    {
      var health := HttpResponse(200, "OK", map[], body);
      health := health.(headers := health.headers["Content-Type" := "application/json"]);
      health := health.(headers := health.headers[CONTENT_LENGTH := Text.Decimal(|body|)]);
      health := health.(headers := health.headers["Connection" := "close"]);
      text := ResponseToString(health);
    }

    /** The coroutine that answers a health probe; `body` is the formatted service text. */
    method OnHealthRequest(body: string)
      requires reply == Pending(Health)
      modifies this`response, this`reply
      ensures View() == Handle(old(View()), ReplyRuns, false)
      ensures response == PrintedResponse(HealthReply(body))
    {
      TakeOn();
      ghost var view := View();
      var text := HealthText(body);
      response := text;
      assert View() == view;
    }

    /** The write of a 429 or a health reply has ended: the socket is left as it is. */
    method OnReplyWritten()
      requires reply == Running(Refusal) || reply == Running(Health)
      modifies this`reply
      ensures View() == Handle(old(View()), ReplyEnds(false), false)
    {
      reply := Over(reply.kind);
    }

    /** The upstream session, up to the request it sends: that of the request that was kept. */
    method OpenUpstream(host: string) returns (text: string)
      requires reply == Pending(Upstream)
      modifies this`reply
      ensures View() == Handle(old(View()), ReplyRuns, false)
      ensures text == UpstreamRequest(request, host)
    {
      TakeOn();
      text := GenerateRequest(request, host);
    }

    /** The relay loop of the upstream session, and `on_outgoing_session_completed` when it reaches end of file. */
    method RelayResponse(results: seq<Read>)
      requires reply == Running(Upstream) && Ending(results).Some?
      modifies this`response, this`reply, this`closed
      ensures var handedOver := Ending(results) == Wrappers.Some(EndOfFile);
              && View() == Handle(old(View()), ReplyEnds(handedOver), false)
              && response == if handedOver then Stream(results) else old(response)
    {
      var handed := ReadResponse(results);
      reply := Over(Upstream);
      if handed.Some? {
        response := handed.value;
        closed := true;
      }
    }
  }
}
