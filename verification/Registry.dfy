/**
 Registration of sessions against shutdown, in src/server.cpp.

 `register_session` and `schedule_shutdown` run on any number of threads. Each call is a
 task; one step of a task is one operation on the atomic flag, on the mutex, or on the list
 of weak pointers under the mutex, or one `stop()` call. Sessions may expire between any
 two steps. The invariant is proved over every interleaving.
 */
module Registry {
  import opened Wrappers

  /** A call, and with it the session that a registering call created. */
  type Task = nat

  datatype Pc =
    // register_session
    | RegCalled
    | RegLocked                                 // holds session_mtx_
    | RegLoaded(shutdown: bool)                 // holds it, has read the flag
    | RegStored(shutdown: bool)                 // holds it, has pushed unless shutdown
    | RegDone(ok: bool)
    // schedule_shutdown
    | ShutCalled
    | ShutWon                                   // flipped the flag
    | ShutScanning(pos: nat, active: seq<Task>) // holds session_mtx_, at list position pos
    | ShutStopping(active: seq<Task>, next: nat)
    | ShutDone(won: bool)

  datatype State = State(
    pending: bool,          // shutdown_pending_
    holder: Option<Task>,   // who holds session_mtx_
    sessions: seq<Task>,    // sessions_
    expired: set<Task>,     // sessions that no longer exist
    pcs: map<Task, Pc>,
    // history
    winner: Option<Task>,   // who flipped the flag
    atScan: seq<Task>,      // sessions_ when the scan began
    erased: set<Task>,      // found expired by the scan
    stops: seq<Task>)       // the stop() calls, in order

  const INIT := State(false, None, [], {}, map[], None, [], {}, [])

  datatype Action = Call(task: Task, shutdown: bool) | Run(task: Task) | Expire(session: Task)

  predicate IsRegistering(pc: Pc) {
    pc.RegCalled? || pc.RegLocked? || pc.RegLoaded? || pc.RegStored?
  }

  predicate Holds(pc: Pc) {
    pc.RegLocked? || pc.RegLoaded? || pc.RegStored? || pc.ShutScanning?
  }

  predicate Finished(pc: Pc) {
    pc.RegDone? || pc.ShutDone?
  }

  /** The sessions a task keeps alive through strong pointers. */
  predicate KeepsAlive(task: Task, pc: Pc, session: Task) {
    || (IsRegistering(pc) && task == session)
    || ((pc.ShutScanning? || pc.ShutStopping?) && session in pc.active)
  }

  predicate Enabled(s: State, a: Action) {
    match a
    case Call(t, _) => t !in s.pcs
    case Run(t) => t in s.pcs && !Finished(s.pcs[t])
                   && (s.pcs[t].RegCalled? || s.pcs[t].ShutWon? ==> s.holder == None)
    case Expire(x) => x in s.pcs && s.pcs[x].RegDone? && x !in s.expired && forall t :: t in s.pcs ==> !KeepsAlive(t, s.pcs[t], x)
  }

  function At(s: State, t: Task, pc: Pc): State {
    s.(pcs := s.pcs[t := pc])
  }

  /** The next operation of a task. */
  function RunTask(s: State, t: Task): State
    requires Enabled(s, Run(t))
  {
    match s.pcs[t]
    case RegCalled => At(s, t, RegLocked).(holder := Some(t))
    case RegLocked => At(s, t, RegLoaded(s.pending))
    case RegLoaded(shutdown) =>
      At(s, t, RegStored(shutdown)).(sessions := if shutdown then s.sessions else s.sessions + [t])
    case RegStored(shutdown) => At(s, t, RegDone(!shutdown)).(holder := None)
    case ShutCalled =>
      if s.pending then At(s, t, ShutDone(false))
      else At(s, t, ShutWon).(pending := true, winner := Some(t))
    case ShutWon => At(s, t, ShutScanning(0, [])).(holder := Some(t), atScan := s.sessions)
    case ShutScanning(pos, active) =>
      if pos >= |s.sessions| then At(s, t, ShutStopping(active, 0)).(holder := None)
      else if s.sessions[pos] in s.expired then
        At(s, t, ShutScanning(pos, active)).(
          sessions := s.sessions[..pos] + s.sessions[pos + 1..],
          erased := s.erased + {s.sessions[pos]})
      else At(s, t, ShutScanning(pos + 1, active + [s.sessions[pos]]))
    case ShutStopping(active, next) =>
      if next >= |active| then At(s, t, ShutDone(true))
      else At(s, t, ShutStopping(active, next + 1)).(stops := s.stops + [active[next]])
  }

  function Next(s: State, a: Action): State
    requires Enabled(s, a)
  {
    match a
    case Call(t, shutdown) => At(s, t, if shutdown then ShutCalled else RegCalled)
    case Run(t) => RunTask(s, t)
    case Expire(x) => s.(expired := s.expired + {x})
  }

  /** The state after a schedule, or None when some action of it was not enabled. */
  function Exec(schedule: seq<Action>): Option<State> {
    if schedule == [] then Some(INIT)
    else
      match Exec(schedule[..|schedule| - 1])
      case None => None
      case Some(s) => if Enabled(s, schedule[|schedule| - 1]) then Some(Next(s, schedule[|schedule| - 1])) else None
  }

  // ---------------------------------------------------------------- The invariant

  /** How far the winning shutdown has come. */
  datatype Phase = Open | Closing | Scanning(pos: nat, active: seq<Task>) | Stopping(active: seq<Task>, next: nat) | Over

  predicate Won(pc: Pc) {
    pc.ShutWon? || pc.ShutScanning? || pc.ShutStopping? || pc == ShutDone(true)
  }

  function PhaseOf(s: State): Phase {
    match s.winner
    case None => Open
    case Some(w) =>
      if w !in s.pcs then Open
      else
        match s.pcs[w]
        case ShutScanning(pos, active) => Scanning(pos, active)
        case ShutStopping(active, next) => Stopping(active, next)
        case ShutDone(_) => Over
        case _ => Closing
  }

  /** The list has been read: the snapshot of the shutdown is taken or being taken. */
  predicate SnapshotTaken(s: State) {
    !PhaseOf(s).Open? && !PhaseOf(s).Closing?
  }

  /** Registrations that have taken effect: the session is, or was, on the list. */
  predicate Registered(pc: Pc) {
    pc == RegStored(false) || pc == RegDone(true)
  }

  predicate Distinct(xs: seq<Task>) {
    forall i, j :: 0 <= i < j < |xs| ==> xs[i] != xs[j]
  }

  function Survivors(xs: seq<Task>, gone: set<Task>): seq<Task> {
    if xs == [] then []
    else Survivors(xs[..|xs| - 1], gone) + (if xs[|xs| - 1] in gone then [] else [xs[|xs| - 1]])
  }

  /** The flag, the mutex and who owns them. */
  ghost predicate Ownership(s: State) {
    && (s.pending <==> s.winner.Some?)
    && (s.winner.Some? ==> s.winner.value in s.pcs)
    && (forall t :: t in s.pcs ==> (Won(s.pcs[t]) <==> s.winner == Some(t)))
    && (s.holder.Some? ==> s.holder.value in s.pcs)
    && (forall t :: t in s.pcs ==> (Holds(s.pcs[t]) <==> s.holder == Some(t)))
  }

  /** The list holds the registered sessions that the scan has not erased. */
  ghost predicate Listed(s: State) {
    && Distinct(s.sessions)
    && (forall x :: x in s.sessions ==> x in s.pcs && Registered(s.pcs[x]) && x !in s.erased)
    && (forall x :: x in s.erased ==> x in s.pcs && Registered(s.pcs[x]) && x in s.expired)
    && (forall t :: t in s.pcs && Registered(s.pcs[t]) ==> t in s.sessions || t in s.erased)
  }

  /** What is known in each phase of the winning shutdown. */
  ghost predicate Progress(s: State) {
    && (SnapshotTaken(s) ==> forall t :: t in s.pcs ==> s.pcs[t] != RegLoaded(false) && s.pcs[t] != RegStored(false))
    && (SnapshotTaken(s) ==> s.sessions == Survivors(s.atScan, s.erased) && Distinct(s.atScan))
    && match PhaseOf(s)
       case Open => s.stops == [] && s.erased == {}
       case Closing => s.stops == [] && s.erased == {}
       case Scanning(pos, active) => s.stops == [] && pos <= |s.sessions| && active == s.sessions[..pos]
       case Stopping(active, next) => active == s.sessions && next <= |active| && s.stops == active[..next]
       case Over => s.stops == s.sessions
  }

  /** A session that something still points to has not expired. */
  ghost predicate Alive(s: State) {
    && (forall x :: x in s.expired ==> x in s.pcs && s.pcs[x].RegDone?)
    && (forall t :: t in s.pcs && s.pcs[t].ShutScanning? ==> forall x :: x in s.pcs[t].active ==> x !in s.expired)
    && (forall t :: t in s.pcs && s.pcs[t].ShutStopping? ==> forall x :: x in s.pcs[t].active ==> x !in s.expired)
  }

  ghost predicate Inv(s: State) {
    Ownership(s) && Listed(s) && Progress(s) && Alive(s)
  }

  lemma SurvivorsOfAll(xs: seq<Task>)
    ensures Survivors(xs, {}) == xs
  {
  }

  lemma SurvivorsStep(xs: seq<Task>, i: nat, gone: set<Task>)
    requires i < |xs|
    ensures Survivors(xs[..i + 1], gone) == Survivors(xs[..i], gone) + (if xs[i] in gone then [] else [xs[i]])
  {
    assert xs[..i + 1][..i] == xs[..i];
  }

  lemma DropsInFront(front: seq<Task>, tail: seq<Task>, pos: nat)
    requires pos < |front|
    ensures var all := front + tail;
            all[pos] == front[pos] && all[..pos] + all[pos + 1..] == front[..pos] + front[pos + 1..] + tail
  {
    var all := front + tail;
    assert all[..pos] == front[..pos] && all[pos + 1..] == front[pos + 1..] + tail;
    assert front[..pos] + (front[pos + 1..] + tail) == front[..pos] + front[pos + 1..] + tail;
  }

  /** Erasing one more element takes it out where it stands. */
  lemma {:induction false} SurvivorsErase(xs: seq<Task>, gone: set<Task>, pos: nat)
    requires Distinct(xs) && pos < |Survivors(xs, gone)|
    ensures var left := Survivors(xs, gone);
            Survivors(xs, gone + {left[pos]}) == left[..pos] + left[pos + 1..]
  {
    var left := Survivors(xs, gone);
    var front, last := xs[..|xs| - 1], xs[|xs| - 1];
    var before := Survivors(front, gone);
    SurvivorsAreMembers(front, gone);
    if pos < |before| {
      SurvivorsErase(front, gone, pos);
      assert before[pos] in front && before[pos] != last;
      DropsInFront(before, if last in gone then [] else [last], pos);
    } else {
      assert left[pos] == last && last !in front;
      SurvivorsIgnore(front, gone, last);
      assert left[..pos] + left[pos + 1..] == before;
    }
  }

  lemma {:induction false} SurvivorsAreMembers(xs: seq<Task>, gone: set<Task>)
    ensures forall x :: x in Survivors(xs, gone) <==> x in xs && x !in gone
  {
    if xs != [] {
      SurvivorsAreMembers(xs[..|xs| - 1], gone);
    }
  }

  lemma {:induction false} SurvivorsIgnore(xs: seq<Task>, gone: set<Task>, x: Task)
    requires x !in xs
    ensures Survivors(xs, gone + {x}) == Survivors(xs, gone)
  {
    if xs != [] {
      SurvivorsIgnore(xs[..|xs| - 1], gone, x);
    }
  }

  // ---------------------------------------------------------------- Every step keeps it

  lemma CallKeeps(s: State, t: Task, shutdown: bool)
    requires Inv(s) && Enabled(s, Call(t, shutdown))
    ensures Inv(Next(s, Call(t, shutdown)))
  {
    CallOwnership(s, t, shutdown);
    CallListed(s, t, shutdown);
    CallProgress(s, t, shutdown);
    CallAlive(s, t, shutdown);
  }

  lemma CallOwnership(s: State, t: Task, shutdown: bool)
    requires Ownership(s) && Enabled(s, Call(t, shutdown))
    ensures Ownership(Next(s, Call(t, shutdown)))
  {
  }

  lemma CallListed(s: State, t: Task, shutdown: bool)
    requires Listed(s) && Enabled(s, Call(t, shutdown))
    ensures Listed(Next(s, Call(t, shutdown)))
  {
  }

  lemma CallProgress(s: State, t: Task, shutdown: bool)
    requires Ownership(s) && Progress(s) && Enabled(s, Call(t, shutdown))
    ensures Progress(Next(s, Call(t, shutdown)))
  {
    assert PhaseOf(Next(s, Call(t, shutdown))) == PhaseOf(s);
  }

  lemma CallAlive(s: State, t: Task, shutdown: bool)
    requires Alive(s) && Enabled(s, Call(t, shutdown))
    ensures Alive(Next(s, Call(t, shutdown)))
  {
  }

  lemma ExpireKeeps(s: State, x: Task)
    requires Inv(s) && Enabled(s, Expire(x))
    ensures Inv(Next(s, Expire(x)))
  {
    var s' := Next(s, Expire(x));
    assert PhaseOf(s') == PhaseOf(s);
    forall t, y | t in s.pcs && (s.pcs[t].ShutScanning? || s.pcs[t].ShutStopping?) && y in s.pcs[t].active
      ensures y !in s'.expired
    {
      assert KeepsAlive(t, s.pcs[t], y);
    }
  }

  /** Registering tasks leave the phase of the shutdown alone. */
  lemma RegisterPhase(s: State, t: Task)
    requires Ownership(s) && Enabled(s, Run(t)) && IsRegistering(s.pcs[t])
    ensures PhaseOf(RunTask(s, t)) == PhaseOf(s)
  {
  }

  lemma RegisterOwnership(s: State, t: Task)
    requires Ownership(s) && Enabled(s, Run(t)) && IsRegistering(s.pcs[t])
    ensures Ownership(RunTask(s, t))
  {
  }

  lemma RegisterAlive(s: State, t: Task)
    requires Alive(s) && Enabled(s, Run(t)) && IsRegistering(s.pcs[t])
    ensures Alive(RunTask(s, t))
  {
  }

  lemma RegisterListed(s: State, t: Task)
    requires Listed(s) && Enabled(s, Run(t)) && IsRegistering(s.pcs[t])
    ensures Listed(RunTask(s, t))
  {
  }

  /**
   Before the snapshot nothing is claimed of the list; while it is taken the mutex keeps
   registrations out; afterwards the flag is up and turns them away.
   */
  lemma RegisterProgress(s: State, t: Task)
    requires Ownership(s) && Progress(s) && Enabled(s, Run(t)) && IsRegistering(s.pcs[t])
    ensures Progress(RunTask(s, t))
  {
    RegisterPhase(s, t);
  }

  lemma FlipLosesKeeps(s: State, t: Task)
    requires Inv(s) && Enabled(s, Run(t)) && s.pcs[t].ShutCalled? && s.pending
    ensures Inv(RunTask(s, t))
  {
    var s' := At(s, t, ShutDone(false));
    assert RunTask(s, t) == s';
    ReturnKeeps(s, t, s');
  }

  /** A shutdown that did not win returns, and nothing else changes. */
  lemma ReturnKeeps(s: State, t: Task, s': State)
    requires Inv(s) && t in s.pcs && s.pcs[t].ShutCalled? && s' == At(s, t, ShutDone(false))
    ensures Inv(s')
  {
    ReturnOwnership(s, t, s');
    ReturnProgress(s, t, s');
    assert Listed(s') by { ReturnListed(s, t, s'); }
  }

  lemma ReturnOwnership(s: State, t: Task, s': State)
    requires Ownership(s) && t in s.pcs && s.pcs[t].ShutCalled? && s' == At(s, t, ShutDone(false))
    ensures Ownership(s')
  {
  }

  lemma ReturnListed(s: State, t: Task, s': State)
    requires Listed(s) && t in s.pcs && s.pcs[t].ShutCalled? && s' == At(s, t, ShutDone(false))
    ensures Listed(s')
  {
  }

  lemma ReturnProgress(s: State, t: Task, s': State)
    requires Ownership(s) && Progress(s) && t in s.pcs && s.pcs[t].ShutCalled? && s' == At(s, t, ShutDone(false))
    ensures Progress(s')
  {
    assert PhaseOf(s') == PhaseOf(s);
  }

  lemma FlipWinsKeeps(s: State, t: Task)
    requires Inv(s) && Enabled(s, Run(t)) && s.pcs[t].ShutCalled? && !s.pending
    ensures Inv(RunTask(s, t))
  {
    assert PhaseOf(s) == Open && PhaseOf(RunTask(s, t)) == Closing;
  }

  lemma WinnerOwnership(s: State, t: Task)
    requires Ownership(s) && Enabled(s, Run(t)) && Won(s.pcs[t])
    ensures Ownership(RunTask(s, t))
  {
  }

  lemma BeginScanKeeps(s: State, t: Task)
    requires Inv(s) && Enabled(s, Run(t)) && s.pcs[t].ShutWon?
    ensures Inv(RunTask(s, t))
  {
    WinnerOwnership(s, t);
    BeginScanListed(s, t);
    FreeMutex(s, t);
    BeginScanProgress(s, t, RunTask(s, t));
    BeginScanAlive(s, t);
  }

  lemma BeginScanListed(s: State, t: Task)
    requires Listed(s) && Enabled(s, Run(t)) && s.pcs[t].ShutWon?
    ensures Listed(RunTask(s, t))
  {
  }

  lemma BeginScanAlive(s: State, t: Task)
    requires Alive(s) && Enabled(s, Run(t)) && s.pcs[t].ShutWon?
    ensures Alive(RunTask(s, t))
  {
  }

  lemma FreeMutex(s: State, t: Task)
    requires Ownership(s) && Enabled(s, Run(t)) && s.pcs[t].ShutWon?
    ensures s.winner == Some(t) && forall u :: u in s.pcs ==> !Holds(s.pcs[u])
  {
  }

  /** The scan begins with no registration in flight. */
  lemma BeginScanProgress(s: State, t: Task, s': State)
    requires Progress(s) && Distinct(s.sessions) && t in s.pcs && s.pcs[t].ShutWon? && s.winner == Some(t)
    requires forall u :: u in s.pcs ==> !Holds(s.pcs[u])
    requires s' == At(s, t, ShutScanning(0, [])).(holder := Some(t), atScan := s.sessions)
    ensures Progress(s')
  {
    assert PhaseOf(s) == Closing && PhaseOf(s') == Scanning(0, []) && s.sessions[..0] == [];
    SurvivorsOfAll(s.sessions);
  }

  lemma RemovedOne(xs: seq<Task>, pos: nat)
    requires Distinct(xs) && pos < |xs|
    ensures var left := xs[..pos] + xs[pos + 1..];
            Distinct(left) && forall x :: x in left <==> x in xs && x != xs[pos]
  {
    var left := xs[..pos] + xs[pos + 1..];
    forall x | x in xs && x != xs[pos]
      ensures x in left
    {
      var i :| 0 <= i < |xs| && xs[i] == x;
      assert left[if i < pos then i else i - 1] == x;
    }
  }

  lemma ScanListed(s: State, t: Task)
    requires Ownership(s) && Listed(s) && Enabled(s, Run(t)) && s.pcs[t].ShutScanning?
    ensures Listed(RunTask(s, t))
  {
    var pos := s.pcs[t].pos;
    if pos < |s.sessions| && s.sessions[pos] in s.expired {
      RemovedOne(s.sessions, pos);
    }
  }

  lemma ScanAlive(s: State, t: Task)
    requires Alive(s) && Enabled(s, Run(t)) && s.pcs[t].ShutScanning?
    ensures Alive(RunTask(s, t))
  {
  }

  lemma ScanProgress(s: State, t: Task)
    requires Ownership(s) && Listed(s) && Progress(s) && Enabled(s, Run(t)) && s.pcs[t].ShutScanning?
    ensures Progress(RunTask(s, t))
  {
    var pos := s.pcs[t].pos;
    if pos >= |s.sessions| {
      ScanEnds(s, t);
    } else if s.sessions[pos] in s.expired {
      ScanErases(s, t);
    } else {
      ScanMoves(s, t);
    }
  }

  lemma ScanEnds(s: State, t: Task)
    requires Ownership(s) && Progress(s) && Enabled(s, Run(t)) && s.pcs[t].ShutScanning?
    requires s.pcs[t].pos >= |s.sessions|
    ensures Progress(RunTask(s, t))
  {
    var active := s.pcs[t].active;
    assert PhaseOf(s) == Scanning(s.pcs[t].pos, active);
    assert PhaseOf(RunTask(s, t)) == Stopping(active, 0);
    assert s.sessions[..s.pcs[t].pos] == s.sessions && active[..0] == [];
  }

  lemma ScanErases(s: State, t: Task)
    requires Ownership(s) && Progress(s) && Enabled(s, Run(t)) && s.pcs[t].ShutScanning?
    requires s.pcs[t].pos < |s.sessions| && s.sessions[s.pcs[t].pos] in s.expired
    ensures Progress(RunTask(s, t))
  {
    var s', pos := RunTask(s, t), s.pcs[t].pos;
    assert PhaseOf(s) == PhaseOf(s') == Scanning(pos, s.pcs[t].active);
    SurvivorsErase(s.atScan, s.erased, pos);
    assert s'.sessions[..pos] == s.sessions[..pos];
  }

  lemma ScanMoves(s: State, t: Task)
    requires Ownership(s) && Progress(s) && Enabled(s, Run(t)) && s.pcs[t].ShutScanning?
    requires s.pcs[t].pos < |s.sessions| && s.sessions[s.pcs[t].pos] !in s.expired
    ensures Progress(RunTask(s, t))
  {
    var pos, active := s.pcs[t].pos, s.pcs[t].active;
    assert PhaseOf(s) == Scanning(pos, active);
    assert PhaseOf(RunTask(s, t)) == Scanning(pos + 1, active + [s.sessions[pos]]);
    assert s.sessions[..pos + 1] == s.sessions[..pos] + [s.sessions[pos]];
  }

  lemma StopListed(s: State, t: Task)
    requires Ownership(s) && Listed(s) && Enabled(s, Run(t)) && s.pcs[t].ShutStopping?
    ensures Listed(RunTask(s, t))
  {
  }

  lemma StopProgress(s: State, t: Task)
    requires Ownership(s) && Progress(s) && Enabled(s, Run(t)) && s.pcs[t].ShutStopping?
    ensures Progress(RunTask(s, t))
  {
    var s', active, next := RunTask(s, t), s.pcs[t].active, s.pcs[t].next;
    assert PhaseOf(s) == Stopping(active, next);
    if next < |active| {
      assert PhaseOf(s') == Stopping(active, next + 1);
      assert active[..next + 1] == active[..next] + [active[next]];
    } else {
      assert PhaseOf(s') == Over;
      assert active[..next] == active;
    }
  }

  lemma StopAlive(s: State, t: Task)
    requires Alive(s) && Enabled(s, Run(t)) && s.pcs[t].ShutStopping?
    ensures Alive(RunTask(s, t))
  {
  }

  lemma RunKeeps(s: State, t: Task)
    requires Inv(s) && Enabled(s, Run(t))
    ensures Inv(RunTask(s, t))
  {
    match s.pcs[t]
    case RegCalled | RegLocked | RegLoaded(_) | RegStored(_) =>
      RegisterOwnership(s, t);
      RegisterListed(s, t);
      RegisterProgress(s, t);
      RegisterAlive(s, t);
    case ShutCalled => if s.pending { FlipLosesKeeps(s, t); } else { FlipWinsKeeps(s, t); }
    case ShutWon => BeginScanKeeps(s, t);
    case ShutScanning(_, _) =>
      WinnerOwnership(s, t);
      ScanListed(s, t);
      ScanProgress(s, t);
      ScanAlive(s, t);
    case ShutStopping(_, _) =>
      WinnerOwnership(s, t);
      StopListed(s, t);
      StopProgress(s, t);
      StopAlive(s, t);
  }

  lemma NextKeeps(s: State, a: Action)
    requires Inv(s) && Enabled(s, a)
    ensures Inv(Next(s, a))
  {
    match a
    case Call(t, shutdown) => CallKeeps(s, t, shutdown);
    case Run(t) => RunKeeps(s, t);
    case Expire(x) => ExpireKeeps(s, x);
  }

  /** The invariant holds after every schedule: over all interleavings of any number of tasks. */
  lemma {:induction false} Reachable(schedule: seq<Action>)
    requires Exec(schedule).Some?
    ensures Inv(Exec(schedule).value)
  {
    if schedule != [] {
      Reachable(schedule[..|schedule| - 1]);
      NextKeeps(Exec(schedule[..|schedule| - 1]).value, schedule[|schedule| - 1]);
    }
  }

  // ---------------------------------------------------------------- What it gives

  function StopsOf(s: State, session: Task): nat {
    multiset(s.stops)[session]
  }

  lemma {:induction false} CountDistinct(xs: seq<Task>, x: Task)
    requires Distinct(xs)
    ensures multiset(xs)[x] == if x in xs then 1 else 0
  {
    if xs != [] {
      var front := xs[..|xs| - 1];
      assert xs == front + [xs[|xs| - 1]];
      CountDistinct(front, x);
    }
  }

  lemma StopsAreRegistered(s: State, t: Task)
    requires Inv(s) && t in s.stops
    ensures t in s.pcs && s.pcs[t] == RegDone(true)
  {
    match PhaseOf(s)
    case Stopping(active, next) => assert t in s.sessions;
    case _ =>
  }

  /** Every session that is registered has been found expired, or stopped once; no other has been stopped. */
  ghost predicate AllStopped(s: State) {
    forall t :: t in s.pcs ==>
      if s.pcs[t] == RegDone(true)
      then (StopsOf(s, t) == 1 && t !in s.erased) || (StopsOf(s, t) == 0 && t in s.erased && t in s.expired)
      else StopsOf(s, t) == 0
  }

  lemma ReturnedHasStopped(s: State, winner: Task)
    requires Inv(s) && winner in s.pcs && s.pcs[winner] == ShutDone(true)
    ensures AllStopped(s)
  {
    assert PhaseOf(s) == Over;
    forall t | t in s.pcs
      ensures StopsOf(s, t) == if t in s.sessions then 1 else 0
    {
      CountDistinct(s.stops, t);
    }
  }

  /**
   No session escapes: once the call that flipped the flag returns, every session whose
   registration succeeded, at whatever moment it read the flag, either had expired when the
   scan reached it or has been given exactly one stop(); no other session has been given any.
   */
  lemma NoSessionEscapes(schedule: seq<Action>, winner: Task)
    requires Exec(schedule).Some?
    requires winner in Exec(schedule).value.pcs && Exec(schedule).value.pcs[winner] == ShutDone(true)
    ensures AllStopped(Exec(schedule).value)
  {
    Reachable(schedule);
    ReturnedHasStopped(Exec(schedule).value, winner);
  }

  /** At every moment: one caller runs the stop sequence once the flag is up, none before; no session is stopped twice or after its end. */
  lemma StopsAreSound(schedule: seq<Action>)
    requires Exec(schedule).Some?
    ensures var s := Exec(schedule).value;
            && (forall t, u :: t in s.pcs && u in s.pcs && Won(s.pcs[t]) && Won(s.pcs[u]) ==> t == u)
            && (s.pending <==> exists t :: t in s.pcs && Won(s.pcs[t]))
            && (forall t :: t in s.pcs && s.pcs[t].ShutStopping? && s.pcs[t].next < |s.pcs[t].active| ==>
                  s.pcs[t].active[s.pcs[t].next] !in s.expired + s.erased)
            && (forall x :: StopsOf(s, x) <= 1)
            && (forall x :: StopsOf(s, x) == 1 ==> x in s.pcs && s.pcs[x] == RegDone(true))
  {
    var s := Exec(schedule).value;
    Reachable(schedule);
    forall x: Task
      ensures StopsOf(s, x) <= 1 && (StopsOf(s, x) == 1 ==> x in s.pcs && s.pcs[x] == RegDone(true))
    {
      CountDistinct(s.stops, x);
    }
  }

  /** The stop() calls come in the order of registration, leaving out exactly the sessions found expired. */
  lemma StopsInOrder(schedule: seq<Action>, winner: Task)
    requires Exec(schedule).Some?
    requires winner in Exec(schedule).value.pcs && Exec(schedule).value.pcs[winner] == ShutDone(true)
    ensures var s := Exec(schedule).value; s.stops == Survivors(s.atScan, s.erased)
  {
    Reachable(schedule);
    assert PhaseOf(Exec(schedule).value) == Over;
  }

  /** The registrations that have succeeded. */
  function Succeeded(s: State): set<Task> {
    set t | t in s.pcs && s.pcs[t] == RegDone(true)
  }

  lemma SnapshotStays(s: State, a: Action)
    requires Ownership(s) && SnapshotTaken(s) && Enabled(s, a)
    ensures SnapshotTaken(Next(s, a))
  {
    assert s.winner.Some? && s.winner.value in s.pcs;
    assert Next(s, a).winner == s.winner;
  }

  lemma SuccessesStay(s: State, a: Action)
    requires Enabled(s, a)
    requires forall t :: t in s.pcs ==> s.pcs[t] != RegStored(false)
    ensures Succeeded(Next(s, a)) == Succeeded(s)
  {
    var s' := Next(s, a);
    forall t | t in s'.pcs
      ensures s'.pcs[t] == RegDone(true) <==> t in s.pcs && s.pcs[t] == RegDone(true)
    {
    }
  }

  /** No registration succeeds after the snapshot, however long the run goes on. */
  lemma {:induction false} NoneAfterSnapshot(schedule: seq<Action>, more: seq<Action>)
    requires Exec(schedule).Some? && SnapshotTaken(Exec(schedule).value)
    requires Exec(schedule + more).Some?
    ensures SnapshotTaken(Exec(schedule + more).value)
    ensures Succeeded(Exec(schedule + more).value) == Succeeded(Exec(schedule).value)
    decreases |more|
  {
    var all := schedule + more;
    if more == [] {
      assert all == schedule;
    } else {
      var front := more[..|more| - 1];
      assert all[..|all| - 1] == schedule + front;
      NoneAfterSnapshot(schedule, front);
      Reachable(schedule + front);
      ExecNext(all);
      var s := Exec(schedule + front).value;
      SnapshotStays(s, more[|more| - 1]);
      SuccessesStay(s, more[|more| - 1]);
    }
  }

  /**
   The mutex never wedges: a call that has not returned can take its next step, or waits for
   a task that holds the mutex and can take its own.
   */
  lemma NoDeadlock(schedule: seq<Action>, t: Task)
    requires Exec(schedule).Some? && t in Exec(schedule).value.pcs && !Finished(Exec(schedule).value.pcs[t])
    ensures var s := Exec(schedule).value;
            || Enabled(s, Run(t))
            || ((s.pcs[t].RegCalled? || s.pcs[t].ShutWon?) && s.holder.Some? && Enabled(s, Run(s.holder.value)))
  {
    Reachable(schedule);
  }

  /** Turned away: a registration that saw the flag up, or a shutdown that found it up. */
  predicate TurnedAway(pc: Pc) {
    pc == RegLoaded(true) || pc == RegStored(true) || pc == RegDone(false) || pc == ShutDone(false)
  }

  ghost predicate CausesOk(s: State) {
    forall t :: t in s.pcs && TurnedAway(s.pcs[t]) ==> s.pending
  }

  lemma CausesStay(s: State, a: Action)
    requires CausesOk(s) && Enabled(s, a)
    ensures CausesOk(Next(s, a))
  {
  }

  /** No call is turned away unless a shutdown is pending: the first shutdown wins, and before it every registration succeeds. */
  lemma {:induction false} TurnedAwayForCause(schedule: seq<Action>)
    requires Exec(schedule).Some?
    ensures CausesOk(Exec(schedule).value)
  {
    if schedule != [] {
      TurnedAwayForCause(schedule[..|schedule| - 1]);
      ExecNext(schedule);
      CausesStay(Exec(schedule[..|schedule| - 1]).value, schedule[|schedule| - 1]);
    }
  }

  /** A registration that has read the flag as false, and holds the mutex, is about to push. */
  function InFlight(s: State): nat {
    if s.holder.Some? && s.holder.value in s.pcs && s.pcs[s.holder.value] == RegLoaded(false) then 1 else 0
  }

  /** How many steps of its own a call has left, at most; before the flip the list may still grow. */
  function StepsLeft(s: State, t: Task): nat
    requires t in s.pcs
  {
    match s.pcs[t]
    case RegCalled => 4
    case RegLocked => 3
    case RegLoaded(_) => 2
    case RegStored(_) => 1
    case RegDone(_) => 0
    case ShutCalled => 2 * |s.sessions| + 6
    case ShutWon => 2 * (|s.sessions| + InFlight(s)) + 3
    case ShutScanning(pos, active) => (if pos <= |s.sessions| then 2 * (|s.sessions| - pos) else 0) + |active| + 2
    case ShutStopping(active, next) => (if next <= |active| then |active| - next else 0) + 1
    case ShutDone(_) => 0
  }

  /** Every step of a call brings it closer to its end. */
  lemma OwnStepShortens(s: State, t: Task)
    requires Ownership(s) && Progress(s) && Enabled(s, Run(t))
    ensures StepsLeft(RunTask(s, t), t) < StepsLeft(s, t)
  {
    if Won(s.pcs[t]) {
      assert s.winner == Some(t);
    }
  }

  /** A call past the flip keeps its place and its distance when another takes a step. */
  ghost predicate Undisturbed(s: State, s': State, t: Task) {
    t in s.pcs && t in s'.pcs && s'.pcs[t] == s.pcs[t] && StepsLeft(s', t) == StepsLeft(s, t)
  }

  lemma RegisterLeaves(s: State, u: Task, t: Task)
    requires Ownership(s) && Enabled(s, Run(u)) && IsRegistering(s.pcs[u])
    requires t in s.pcs && t != u && !s.pcs[t].ShutCalled?
    ensures Undisturbed(s, RunTask(s, u), t)
  {
    if Won(s.pcs[t]) {
      assert s.pending;
    }
  }

  lemma ShutdownLeaves(s: State, u: Task, t: Task)
    requires Ownership(s) && Enabled(s, Run(u)) && !IsRegistering(s.pcs[u])
    requires t in s.pcs && t != u && !s.pcs[t].ShutCalled?
    ensures Undisturbed(s, RunTask(s, u), t)
  {
    if Won(s.pcs[t]) {
      assert s.pending && s.winner == Some(t) && !Won(s.pcs[u]);
    }
  }

  lemma EnvironmentLeaves(s: State, a: Action, t: Task)
    requires Ownership(s) && Enabled(s, a) && !a.Run? && t in s.pcs
    ensures Undisturbed(s, Next(s, a), t)
  {
  }

  /** Past the flip, a call's own step brings its end closer and no other puts it off. */
  lemma StepTowardsEnd(s: State, a: Action, t: Task)
    requires Ownership(s) && Progress(s) && Enabled(s, a)
    requires t in s.pcs && !s.pcs[t].ShutCalled?
    ensures t in Next(s, a).pcs && !Next(s, a).pcs[t].ShutCalled?
    ensures (if a == Run(t) then 1 else 0) + StepsLeft(Next(s, a), t) <= StepsLeft(s, t)
  {
    if a == Run(t) {
      OwnStepShortens(s, t);
    } else if !a.Run? {
      EnvironmentLeaves(s, a, t);
    } else if IsRegistering(s.pcs[a.task]) {
      RegisterLeaves(s, a.task, t);
    } else {
      ShutdownLeaves(s, a.task, t);
    }
  }

  lemma NoStepsLeft(s: State, t: Task)
    ensures t in s.pcs ==> (StepsLeft(s, t) == 0 <==> Finished(s.pcs[t]))
  {
  }

  lemma ExecNext(schedule: seq<Action>)
    requires schedule != [] && Exec(schedule).Some?
    ensures var front, a := Exec(schedule[..|schedule| - 1]), schedule[|schedule| - 1];
            front.Some? && Enabled(front.value, a) && Exec(schedule).value == Next(front.value, a)
  {
  }

  /** How many steps of a schedule are a task's own. */
  function OwnSteps(schedule: seq<Action>, t: Task): nat {
    if schedule == [] then 0
    else OwnSteps(schedule[..|schedule| - 1], t) + (if schedule[|schedule| - 1] == Run(t) then 1 else 0)
  }

  lemma {:induction false} CallsShorten(schedule: seq<Action>, more: seq<Action>, t: Task)
    requires Exec(schedule).Some? && Exec(schedule + more).Some?
    requires t in Exec(schedule).value.pcs && !Exec(schedule).value.pcs[t].ShutCalled?
    ensures t in Exec(schedule + more).value.pcs && !Exec(schedule + more).value.pcs[t].ShutCalled?
    ensures OwnSteps(more, t) + StepsLeft(Exec(schedule + more).value, t) <= StepsLeft(Exec(schedule).value, t)
    decreases |more|
  {
    var all := schedule + more;
    if more == [] {
      assert all == schedule;
    } else {
      var front, a := more[..|more| - 1], more[|more| - 1];
      assert all[..|all| - 1] == schedule + front;
      ExecNext(all);
      CallsShorten(schedule, front, t);
      Reachable(schedule + front);
      StepTowardsEnd(Exec(schedule + front).value, a, t);
    }
  }

  /**
   Every registration, and the shutdown that flipped the flag, returns after a bounded
   number of steps of its own, whatever the others do, sessions to stop or erase included.
   */
  lemma CallsReturn(schedule: seq<Action>, more: seq<Action>, t: Task)
    requires Exec(schedule).Some? && Exec(schedule + more).Some?
    requires t in Exec(schedule).value.pcs && !Exec(schedule).value.pcs[t].ShutCalled?
    ensures var s, s' := Exec(schedule).value, Exec(schedule + more).value;
            && t in s'.pcs
            && OwnSteps(more, t) + StepsLeft(s', t) <= StepsLeft(s, t)
            && (StepsLeft(s', t) == 0 <==> Finished(s'.pcs[t]))
  {
    CallsShorten(schedule, more, t);
    NoStepsLeft(Exec(schedule + more).value, t);
  }

  // ---------------------------------------------------------------- Calls that run undisturbed

  lemma Append(schedule: seq<Action>, a: Action)
    requires Exec(schedule).Some? && Enabled(Exec(schedule).value, a)
    ensures Exec(schedule + [a]) == Some(Next(Exec(schedule).value, a))
  {
    assert (schedule + [a])[..|schedule|] == schedule;
  }

  /** A registration that nobody disturbs does what the sequential operation does. */
  lemma RegistersAlone(schedule: seq<Action>, t: Task) returns (more: seq<Action>)
    requires Exec(schedule).Some? && t !in Exec(schedule).value.pcs && Exec(schedule).value.holder == None
    ensures Exec(schedule + more).Some?
    ensures var s, s' := Exec(schedule).value, Exec(schedule + more).value;
            && t in s'.pcs && s'.pcs[t] == RegDone(!s.pending) && s'.holder == None
            && s'.sessions == s.sessions + (if s.pending then [] else [t])
            && s'.pending == s.pending
  {
    var called := schedule + [Call(t, false)];
    Append(schedule, Call(t, false));
    Append(called, Run(t));
    Append(called + [Run(t)], Run(t));
    Append(called + [Run(t)] + [Run(t)], Run(t));
    Append(called + [Run(t)] + [Run(t)] + [Run(t)], Run(t));
    more := [Call(t, false), Run(t), Run(t), Run(t), Run(t)];
    assert schedule + more == called + [Run(t)] + [Run(t)] + [Run(t)] + [Run(t)];
  }

  /** A winning shutdown can always run on to its end, once the mutex is free for its scan. */
  lemma {:induction false} ShutdownCompletes(schedule: seq<Action>, t: Task) returns (more: seq<Action>)
    requires Exec(schedule).Some? && t in Exec(schedule).value.pcs && Won(Exec(schedule).value.pcs[t])
    requires Exec(schedule).value.pcs[t].ShutWon? ==> Exec(schedule).value.holder == None
    ensures Exec(schedule + more).Some?
    ensures t in Exec(schedule + more).value.pcs && Exec(schedule + more).value.pcs[t] == ShutDone(true)
    decreases StepsLeft(Exec(schedule).value, t)
  {
    var s := Exec(schedule).value;
    if s.pcs[t] == ShutDone(true) {
      more := [];
      assert schedule + more == schedule;
    } else {
      Reachable(schedule);
      WinnerCanRun(s, t);
      Append(schedule, Run(t));
      var rest := ShutdownCompletes(schedule + [Run(t)], t);
      more := [Run(t)] + rest;
      assert schedule + more == schedule + [Run(t)] + rest;
    }
  }

  lemma WinnerCanRun(s: State, t: Task)
    requires Ownership(s) && Progress(s) && t in s.pcs && Won(s.pcs[t]) && !Finished(s.pcs[t])
    requires s.pcs[t].ShutWon? ==> s.holder == None
    ensures Enabled(s, Run(t)) && t in RunTask(s, t).pcs
    ensures Won(RunTask(s, t).pcs[t]) && !RunTask(s, t).pcs[t].ShutWon?
    ensures StepsLeft(RunTask(s, t), t) < StepsLeft(s, t)
  {
    OwnStepShortens(s, t);
  }
}

/** The two operations as one thread runs them, on the fields they change. */
module Servers {
  import opened Registry

  lemma DropsNext(front: seq<Task>, rest: seq<Task>)
    requires rest != []
    ensures var all := front + rest; var i := |front|;
            all[i] == rest[0] && all[..i] + all[i + 1..] == front + rest[1..]
            && all == front + [rest[0]] + rest[1..]
  {
  }

  class Server {
    var shutdownPending: bool
    var sessions: seq<Task>
    var httpOpen: bool    // the two acceptors that are held and listening
    var httpsOpen: bool

    /** `init_acceptors`: the second one only if the ports differ. */
    constructor (twoPorts: bool)
      ensures !shutdownPending && sessions == [] && httpOpen && (httpsOpen <==> twoPorts)
    {
      shutdownPending := false;
      sessions := [];
      httpOpen, httpsOpen := true, twoPorts;
    }

    method RegisterSession(session: Task) returns (ok: bool)
      modifies this`sessions
      ensures ok <==> !shutdownPending
      ensures sessions == if ok then old(sessions) + [session] else old(sessions)
    {
      var shutdown := shutdownPending;
      if !shutdown {
        sessions := sessions + [session];
      }
      ok := !shutdown;
    }

    /** The first call erases the expired sessions, stops the others in order and closes the acceptors; later calls do nothing. */
    method ScheduleShutdown(expired: set<Task>) returns (stopped: seq<Task>)
      modifies this
      ensures shutdownPending
      ensures if old(shutdownPending)
              then stopped == [] && sessions == old(sessions) && httpOpen == old(httpOpen) && httpsOpen == old(httpsOpen)
              else stopped == sessions == Survivors(old(sessions), expired) && !httpOpen && !httpsOpen
    {
      stopped := [];
      if shutdownPending {
        return;
      }
      shutdownPending := true;
      stopped := StopSessions(expired);
      CloseAcceptors();
    }

    /** Each acceptor that is still held is given up and closed. */
    method CloseAcceptors()
      modifies this`httpOpen, this`httpsOpen
      ensures !httpOpen && !httpsOpen
    {
      if httpOpen {
        httpOpen := false;
      }
      if httpsOpen {
        httpsOpen := false;
      }
    }

    method StopSessions(expired: set<Task>) returns (stopped: seq<Task>)
      modifies this`sessions
      ensures stopped == sessions == Survivors(old(sessions), expired)
    {
      var active := CollectActive(expired);
      stopped := [];
      for i := 0 to |active|
        invariant stopped == active[..i]
      {
        stopped := stopped + [active[i]];
      }
    }

    /** The loop under the mutex: live sessions are collected, expired ones erased in place. */
    method CollectActive(expired: set<Task>) returns (active: seq<Task>)
      modifies this`sessions
      ensures active == sessions == Survivors(old(sessions), expired)
    {
      active := [];
      var it := 0;
      ghost var all, seen: nat := sessions, 0;
      while it != |sessions|
        invariant seen <= |all| && it == |active|
        invariant active == Survivors(all[..seen], expired)
        invariant sessions == active + all[seen..]
        decreases |all| - seen
      {
        SurvivorsStep(all, seen, expired);
        DropsNext(active, all[seen..]);
        assert all[seen..][1..] == all[seen + 1..];
        if sessions[it] !in expired {
          active := active + [sessions[it]];
          it := it + 1;
        } else {
          sessions := sessions[..it] + sessions[it + 1..];
        }
        seen := seen + 1;
      }
      assert all[..seen] == all;
    }
  }
}
