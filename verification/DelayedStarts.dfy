/**
 When the limit that src/server.cpp puts on grants is also one on starts. A granted health
 reply or upstream session starts in a handler of its own, later than `allow()` read the clock.
 */
module DelayedStarts {
  import opened Wrappers
  import opened RateLimiting
  import opened SessionProtocol

  /** Every window holds no more starts than burst + rate * length, the bound on grants (see SteadyBound). */
  ghost predicate InLimit(rate: NonNegative, burst: NonNegative, s: State) {
    forall from, to :: from <= to ==> |Within(s.starts, from, to)| as real <= WindowBound(Steady(rate, burst), from, to)
  }

  /** Every run in which no start is later than `delay` after its grant keeps the limit. */
  ghost predicate StartsKept(rate: NonNegative, burst: NonNegative, delay: NonNegative) {
    forall start, schedule | Exec(Bucket(rate, burst), start, schedule).Some? ::
      Prompt(Exec(Bucket(rate, burst), start, schedule).value, delay) ==>
        InLimit(rate, burst, Exec(Bucket(rate, burst), start, schedule).value)
  }

  // ---------------------------------------------------------------- When the limit is kept

  /** A bucket that has no room for one token never admits. */
  lemma {:induction false} NeverAdmits(lim: Limits, start: real, h: seq<Call>)
    requires lim.capacity < 1.0 && Greedy(lim, start, h)
    ensures Admitted(h) == 0
  {
    if h != [] {
      NeverAdmits(lim, start, Front(h));
    }
  }

  lemma NothingStarts(s: State, from: real, to: real)
    requires Inv(s) && s.limiter.Bucket? && s.limiter.burst < 1.0
    ensures Within(s.starts, from, to) == {}
  {
    NeverAdmits(Limit(s.limiter), s.filledAt, s.calls);
    forall id: Sid
      ensures id !in s.starts
    {
      assert RecordedAt(s, id);
    }
  }

  lemma KeptWithoutTokens(s: State, from: real, to: real)
    requires Inv(s) && s.limiter.Bucket? && s.limiter.burst < 1.0 && from <= to
    ensures |Within(s.starts, from, to)| as real <= WindowBound(Limit(s.limiter), from, to)
  {
    NothingStarts(s, from, to);
    SteadyRises(s.limiter.rate, s.limiter.burst);
  }

  lemma KeptWithoutRefill(s: State, early: real, from: real, to: real)
    requires Inv(s) && s.limiter.Bucket? && s.limiter.rate == 0.0
    requires early <= from <= to && Prompt(s, from - early)
    ensures |Within(s.starts, from, to)| as real <= WindowBound(Limit(s.limiter), from, to)
  {
    StartsWithinWindow(s, early, from, to);
    NoRefill(s.limiter.rate, s.limiter.burst, early, to);
    NoRefill(s.limiter.rate, s.limiter.burst, from, to);
  }

  lemma NoRefill(rate: NonNegative, burst: NonNegative, from: real, to: real)
    requires rate == 0.0
    ensures WindowBound(Steady(rate, burst), from, to) == burst
  {
  }

  lemma EarlyEnough(s: State, delay: NonNegative, from: real) returns (early: real)
    requires Prompt(s, delay)
    ensures early <= from && Prompt(s, from - early)
  {
    early := from - delay;
  }

  lemma KeptState(s: State, rate: NonNegative, burst: NonNegative, delay: NonNegative)
    requires Inv(s) && s.limiter == Bucket(rate, burst) && Prompt(s, delay)
    requires rate == 0.0 || burst < 1.0 || delay == 0.0
    ensures InLimit(rate, burst, s)
  {
    forall from, to | from <= to
      ensures |Within(s.starts, from, to)| as real <= WindowBound(Limit(s.limiter), from, to)
    {
      if burst < 1.0 {
        KeptWithoutTokens(s, from, to);
      } else if rate == 0.0 {
        var early := EarlyEnough(s, delay, from);
        KeptWithoutRefill(s, early, from, to);
      } else {
        StartsWithinWindow(s, from, from, to);
      }
    }
  }

  // ---------------------------------------------------------------- When it is not

  const AWAITING := NEW_SESSION.(started := true, reading := true, armed := true)
  const GRANTED := AWAITING.(reading := false, reply := Pending(Health), work := Work(1, 1, 0, 1, 0))
  const SERVED := GRANTED.(reply := Running(Health))

  ghost predicate Reaches(limiter: Limiter, schedule: seq<Action>, s: State) {
    Exec(limiter, 0.0, schedule) == Some(s)
  }

  lemma Reach(limiter: Limiter, schedule: seq<Action>, s: State, a: Action, s': State) returns (longer: seq<Action>)
    requires Reaches(limiter, schedule, s) && Enabled(s, a) && s' == Next(s, a)
    ensures Reaches(limiter, longer, s')
  {
    ExecStep(limiter, 0.0, schedule, a);
    longer := schedule + [a];
  }

  lemma Arrives(s: State, id: Sid, now: real)
    requires id !in s.sessions && LastInstant(s.filledAt, s.calls) <= now
    ensures Enabled(s, Open(id)) && Next(s, Open(id)) == s.(sessions := s.sessions[id := NEW_SESSION])
    ensures var opened' := s.(sessions := s.sessions[id := NEW_SESSION]); var a := Step(id, Start(true), now);
            Enabled(opened', a) && Next(opened', a) == s.(sessions := s.sessions[id := AWAITING])
  {
    assert s.sessions[id := NEW_SESSION][id := AWAITING] == s.sessions[id := AWAITING];
  }

  lemma IsAdmitted(s: State, id: Sid, now: real)
    requires id in s.sessions && s.sessions[id] == AWAITING && LastInstant(s.filledAt, s.calls) <= now && Answer(s, now)
    ensures var a := Step(id, HeaderRead(true, true), now);
            && Enabled(s, a)
            && Next(s, a) == s.(sessions := s.sessions[id := GRANTED], calls := s.calls + [Call(now, true)],
                                granted := s.granted[id := now])
  {
  }

  /** A new session whose health probe is granted at `now`. */
  lemma Admit(limiter: Limiter, schedule: seq<Action>, s: State, id: Sid, now: real) returns (longer: seq<Action>, s': State)
    requires Reaches(limiter, schedule, s) && id !in s.sessions
    requires LastInstant(s.filledAt, s.calls) <= now && Answer(s, now)
    ensures Reaches(limiter, longer, s')
    ensures s' == s.(sessions := s.sessions[id := GRANTED], calls := s.calls + [Call(now, true)],
                     granted := s.granted[id := now])
  {
    var idle, waiting := s.(sessions := s.sessions[id := NEW_SESSION]), s.(sessions := s.sessions[id := AWAITING]);
    Arrives(s, id, now);
    longer := Reach(limiter, schedule, s, Open(id), idle);
    longer := Reach(limiter, longer, idle, Step(id, Start(true), now), waiting);
    IsAdmitted(waiting, id, now);
    s' := Next(waiting, Step(id, HeaderRead(true, true), now));
    longer := Reach(limiter, longer, waiting, Step(id, HeaderRead(true, true), now), s');
    assert s.sessions[id := AWAITING][id := GRANTED] == s.sessions[id := GRANTED];
  }

  lemma StartStep(s: State, id: Sid, now: real)
    requires id in s.sessions && s.sessions[id] == GRANTED && LastInstant(s.filledAt, s.calls) <= now
    ensures Enabled(s, Step(id, ReplyRuns, now))
    ensures Next(s, Step(id, ReplyRuns, now))
         == s.(sessions := s.sessions[id := SERVED], starts := s.starts[id := now])
  {
  }

  lemma StartOne(limiter: Limiter, schedule: seq<Action>, s: State, id: Sid, now: real) returns (longer: seq<Action>, s': State)
    requires Reaches(limiter, schedule, s)
    requires id in s.sessions && s.sessions[id] == GRANTED && LastInstant(s.filledAt, s.calls) <= now
    ensures Reaches(limiter, longer, s')
    ensures s' == s.(sessions := s.sessions[id := SERVED], starts := s.starts[id := now])
  {
    StartStep(s, id, now);
    s' := s.(sessions := s.sessions[id := SERVED], starts := s.starts[id := now]);
    longer := Reach(limiter, schedule, s, Step(id, ReplyRuns, now), s');
  }

  /** As long as a whole token is left of the burst, the bucket has one to give. */
  lemma OneMore(rate: NonNegative, burst: NonNegative, k: nat)
    requires k as real + 1.0 <= burst
    ensures LastInstant(0.0, Burst(k)) == 0.0 && Available(Steady(rate, burst), 0.0, Burst(k), 0.0) >= 1.0
  {
    BurstDrains(Steady(rate, burst), k);
  }

  /** The sessions 0 to n - 1. */
  function FirstIds(n: nat): (ids: set<Sid>)
    ensures |ids| == n && forall id: Sid :: id in ids <==> id < n
  {
    if n == 0 then {} else FirstIds(n - 1) + {n - 1}
  }

  /** The first k sessions are granted at the instant 0, and no other has come. */
  ghost predicate BurstGranted(s: State, rate: NonNegative, burst: NonNegative, k: nat) {
    && s.limiter == Bucket(rate, burst) && s.filledAt == 0.0 && s.calls == Burst(k) && s.starts == map[]
    && (forall id: Sid :: id in s.sessions <==> id < k) && (forall id: Sid :: id in s.granted <==> id < k)
    && forall id: Sid :: id < k ==> s.sessions[id] == GRANTED && s.granted[id] == 0.0
  }

  lemma {:induction false} GrantBurst(rate: NonNegative, burst: NonNegative, k: nat) returns (schedule: seq<Action>, s: State)
    requires k as real <= burst
    ensures Reaches(Bucket(rate, burst), schedule, s) && BurstGranted(s, rate, burst, k)
  {
    if k == 0 {
      schedule, s := [], Initially(Bucket(rate, burst), 0.0);
    } else {
      var before;
      schedule, before := GrantBurst(rate, burst, k - 1);
      OneMore(rate, burst, k - 1);
      schedule, s := Admit(Bucket(rate, burst), schedule, before, k - 1, 0.0);
      GrantedNext(before, s, rate, burst, k - 1);
    }
  }

  lemma GrantedNext(s: State, s': State, rate: NonNegative, burst: NonNegative, k: nat)
    requires BurstGranted(s, rate, burst, k)
    requires s' == s.(sessions := s.sessions[k := GRANTED], calls := s.calls + [Call(0.0, true)], granted := s.granted[k := 0.0])
    ensures BurstGranted(s', rate, burst, k + 1)
  {
  }

  /** The first k sessions have started at the instant d; the others are as they were. */
  ghost predicate StartedAt(s: State, s': State, k: nat, d: real) {
    && s' == s.(sessions := s'.sessions, starts := s'.starts)
    && s'.sessions.Keys == s.sessions.Keys
    && (forall id :: id in s.sessions && k <= id ==> s'.sessions[id] == s.sessions[id])
    && (forall id: Sid :: id in s'.starts <==> id < k)
    && forall id: Sid :: id < k ==> s'.starts[id] == d
  }

  lemma {:induction false} StartAll(limiter: Limiter, schedule: seq<Action>, s: State, k: nat, d: real)
    returns (longer: seq<Action>, s': State)
    requires Reaches(limiter, schedule, s) && s.starts == map[] && LastInstant(s.filledAt, s.calls) <= d
    requires forall id: Sid :: id < k ==> id in s.sessions && s.sessions[id] == GRANTED
    ensures Reaches(limiter, longer, s') && StartedAt(s, s', k, d)
    decreases k
  {
    if k == 0 {
      longer, s' := schedule, s;
    } else {
      var before;
      longer, before := StartAll(limiter, schedule, s, k - 1, d);
      longer, s' := StartOne(limiter, longer, before, k - 1, d);
      StartedNext(s, before, s', k - 1, d);
    }
  }

  lemma StartedNext(s: State, before: State, s': State, k: nat, d: real)
    requires StartedAt(s, before, k, d) && k in before.sessions
    requires s' == before.(sessions := before.sessions[k := SERVED], starts := before.starts[k := d])
    ensures StartedAt(s, s', k + 1, d)
  {
  }

  /** One more session, granted and started at once. */
  lemma AdmitAndStart(limiter: Limiter, schedule: seq<Action>, s: State, id: Sid, t: real) returns (longer: seq<Action>, s': State)
    requires Reaches(limiter, schedule, s) && id !in s.sessions
    requires LastInstant(s.filledAt, s.calls) <= t && Answer(s, t)
    ensures Reaches(limiter, longer, s') && s'.granted == s.granted[id := t] && s'.starts == s.starts[id := t]
  {
    var last;
    longer, last := Admit(limiter, schedule, s, id, t);
    assert last.calls == s.calls + [Call(t, true)] && LastInstant(last.filledAt, last.calls) == t;
    longer, s' := StartOne(limiter, longer, last, id, t);
  }

  /** A burst that starts late, and one more as soon as there is a token for it. */
  lemma LateBurst(rate: NonNegative, burst: NonNegative, n: nat, d: real, t: real) returns (schedule: seq<Action>, s: State)
    requires n as real <= burst && 1.0 <= burst && 0.0 <= d <= t && rate * t == 1.0 - (burst - n as real)
    ensures Reaches(Bucket(rate, burst), schedule, s)
    ensures forall id: Sid :: (id in s.starts <==> id <= n) && (id in s.granted <==> id <= n)
    ensures forall id :: id in s.starts ==> d <= s.starts[id] <= t && s.starts[id] - s.granted[id] <= d
  {
    var granted, late;
    schedule, granted := GrantBurst(rate, burst, n);
    FullAgain(rate, burst, n, t);
    schedule, late := StartAll(Bucket(rate, burst), schedule, granted, n, d);
    AnswersAgain(granted, late, rate, burst, n, d, t);
    schedule, s := AdmitAndStart(Bucket(rate, burst), schedule, late, n, t);
    StartsOf(granted, late, s, rate, burst, n, d, t);
  }

  lemma AnswersAgain(granted: State, late: State, rate: NonNegative, burst: NonNegative, n: nat, d: real, t: real)
    requires BurstGranted(granted, rate, burst, n) && StartedAt(granted, late, n, d)
    requires Available(Steady(rate, burst), 0.0, Burst(n), t) >= 1.0
    ensures Answer(late, t) && n !in late.sessions
  {
  }

  lemma StartsOf(granted: State, late: State, s: State, rate: NonNegative, burst: NonNegative, n: nat, d: real, t: real)
    requires BurstGranted(granted, rate, burst, n) && StartedAt(granted, late, n, d) && 0.0 <= d <= t
    requires s.granted == late.granted[n := t] && s.starts == late.starts[n := t]
    ensures forall id: Sid :: (id in s.starts <==> id <= n) && (id in s.granted <==> id <= n)
    ensures forall id :: id in s.starts ==> d <= s.starts[id] <= t && s.starts[id] - s.granted[id] <= d
  {
    forall id | id in s.starts
      ensures d <= s.starts[id] <= t && s.starts[id] - s.granted[id] <= d
    {
      if id != n {
        assert s.starts[id] == late.starts[id] == d && s.granted[id] == granted.granted[id] == 0.0;
      }
    }
  }

  lemma FullAgain(rate: NonNegative, burst: NonNegative, n: nat, t: real)
    requires n as real <= burst && 1.0 <= burst && rate * t == 1.0 - (burst - n as real)
    ensures LastInstant(0.0, Burst(n)) == 0.0 && Available(Steady(rate, burst), 0.0, Burst(n), t) >= 1.0
  {
    BurstDrains(Steady(rate, burst), n);
  }

  /** A burst that starts late meets the token that came meanwhile, and the window is too full. */
  lemma BurstMeetsToken(rate: NonNegative, burst: NonNegative, delay: NonNegative)
    requires rate > 0.0 && burst >= 1.0 && delay > 0.0
    ensures !StartsKept(rate, burst, delay)
  {
    var n := burst.Floor;
    var t := (1.0 - (burst - n as real)) / rate;
    var d := if delay <= t then delay else t;
    assert rate * t == 1.0 - (burst - n as real) && t > 0.0;
    var schedule, s := LateBurst(rate, burst, n, d, t);
    assert Within(s.starts, d, t) == FirstIds(n + 1);
    TooFull(rate, burst, n, d, t);
    SteadyBound(rate, burst, d, t);
    assert Prompt(s, delay) && !InLimit(rate, burst, s);
  }

  lemma TooFull(rate: real, burst: real, n: nat, d: real, t: real)
    requires rate > 0.0 && d > 0.0 && rate * t == 1.0 - (burst - n as real)
    ensures burst + rate * (t - d) < (n + 1) as real
  {
    assert rate * (t - d) == rate * t - rate * d;
    assert rate * d > 0.0;
  }

  /**
   The limit on grants is a limit on starts, over every run whose starts are no later than
   `delay` after their grants, exactly when nothing is refilled, nothing is ever granted, or
   there is no delay.
   */
  lemma StartsKeptExactly(rate: NonNegative, burst: NonNegative, delay: NonNegative)
    ensures StartsKept(rate, burst, delay) <==> rate == 0.0 || burst < 1.0 || delay == 0.0
  {
    if rate == 0.0 || burst < 1.0 || delay == 0.0 {
      forall start, schedule | Exec(Bucket(rate, burst), start, schedule).Some?
        ensures Prompt(Exec(Bucket(rate, burst), start, schedule).value, delay) ==>
                  InLimit(rate, burst, Exec(Bucket(rate, burst), start, schedule).value)
      {
        Reachable(Bucket(rate, burst), start, schedule);
        var s := Exec(Bucket(rate, burst), start, schedule).value;
        if Prompt(s, delay) {
          KeptState(s, rate, burst, delay);
        }
      }
    } else {
      BurstMeetsToken(rate, burst, delay);
    }
  }
}
