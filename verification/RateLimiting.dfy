/**
 The token bucket of src/tocken-bucket.cpp.

 The bucket keeps one number and one instant. What it is for is a statement about the
 whole history of calls: no window of any length sees more admissions than
 `capacity + rate * length`. This module proves that the one-number form and the
 history form are the same, that admitting greedily is the best any policy can do
 under that constraint, and exactly when the advice "retry after one second" is sound.

 Rates, levels and instants (in seconds) are exact reals; the clock is a parameter.
 */
module RateLimiting {

  /** Both limits are built from unsigned configuration fields, so neither is negative. */
  type NonNegative = r: real | 0.0 <= r

  /**
   What a bucket is held to. `credit(t)` is what the clock has paid in by the instant t: for
   the bucket of the source it is `rate * t` (see Steady). Nothing but the Retry-After
   results needs more of it than that it never decreases.
   */
  datatype Limits = Limits(credit: real -> real, capacity: NonNegative)

  ghost predicate Rising(lim: Limits) {
    forall x, y :: x <= y ==> lim.credit(x) <= lim.credit(y)
  }

  /** The limits of a bucket refilled with `rate` tokens a second. */
  function Steady(rate: NonNegative, capacity: NonNegative): Limits {
    Limits(t => rate * t, capacity)
  }

  lemma SteadyRises(rate: NonNegative, capacity: NonNegative)
    ensures Rising(Steady(rate, capacity))
  {
    var lim := Steady(rate, capacity);
    forall x, y | x <= y
      ensures lim.credit(x) <= lim.credit(y)
    {
      Scales(rate, x, y);
    }
  }

  lemma Scales(rate: NonNegative, x: real, y: real)
    requires x <= y
    ensures rate * x <= rate * y
  {
  }

  /** One call of `allow()`: when it read the clock and what it answered. */
  datatype Call = Call(time: real, admitted: bool)

  function Min(a: real, b: real): real {
    if a <= b then a else b
  }

  function Front<T>(s: seq<T>): seq<T>
    requires s != []
  {
    s[..|s| - 1]
  }

  function Last<T>(s: seq<T>): T
    requires s != []
  {
    s[|s| - 1]
  }

  /** What is paid in between two instants. */
  function Accrued(lim: Limits, from: real, to: real): real {
    lim.credit(to) - lim.credit(from)
  }

  // ---------------------------------------------------------------- The bucket

  /** The instant of the last refill, for a bucket filled at `start`. */
  function LastInstant(start: real, h: seq<Call>): real {
    if h == [] then start else Last(h).time
  }

  /** The tokens once the time between two instants has been credited. */
  function Refilled(lim: Limits, tokens: real, from: real, to: real): real {
    Min(lim.capacity, tokens + Accrued(lim, from, to))
  }

  /** The tokens stored after the calls of `h`, whatever rule decided them. */
  function Level(lim: Limits, start: real, h: seq<Call>): real
    decreases |h|, 0
  {
    if h == [] then lim.capacity
    else Available(lim, start, Front(h), Last(h).time) - (if Last(h).admitted then 1.0 else 0.0)
  }

  /** The tokens a call at `now` finds, once it has refilled the bucket. */
  function Available(lim: Limits, start: real, h: seq<Call>, now: real): real
    decreases |h|, 1
  {
    Refilled(lim, Level(lim, start, h), LastInstant(start, h), now)
  }

  /** The clock never ran backwards. */
  ghost predicate Chronological(start: real, h: seq<Call>) {
    h == [] || (Chronological(start, Front(h)) && LastInstant(start, Front(h)) <= Last(h).time)
  }

  /** Every call of `h` was decided by the bucket. */
  ghost predicate Greedy(lim: Limits, start: real, h: seq<Call>) {
    h == [] ||
    (Greedy(lim, start, Front(h)) &&
     (Last(h).admitted <==> Available(lim, start, Front(h), Last(h).time) >= 1.0))
  }

  lemma AppendCall(lim: Limits, start: real, h: seq<Call>, c: Call)
    requires Chronological(start, h) && LastInstant(start, h) <= c.time
    ensures Chronological(start, h + [c])
    ensures Level(lim, start, h + [c]) == Available(lim, start, h, c.time) - (if c.admitted then 1.0 else 0.0)
    ensures Greedy(lim, start, h) && (c.admitted <==> Available(lim, start, h, c.time) >= 1.0) ==>
              Greedy(lim, start, h + [c])
  {
    assert Front(h + [c]) == h;
  }

  // ---------------------------------------------------------------- The history

  /** How many calls of `h` were admitted. */
  function Admitted(h: seq<Call>): nat {
    if h == [] then 0 else Admitted(Front(h)) + (if Last(h).admitted then 1 else 0)
  }

  /** How many calls at or after the instant `from` were admitted. */
  function AdmittedSince(h: seq<Call>, from: real): nat {
    if h == [] then 0
    else AdmittedSince(Front(h), from) + (if Last(h).admitted && from <= Last(h).time then 1 else 0)
  }

  /** How many calls in the closed window [from, to] were admitted. */
  function AdmittedBetween(h: seq<Call>, from: real, to: real): nat {
    if h == [] then 0
    else AdmittedBetween(Front(h), from, to)
         + (if Last(h).admitted && from <= Last(h).time <= to then 1 else 0)
  }

  /** What the window [from, to] may hold: capacity + rate * length. */
  function WindowBound(lim: Limits, from: real, to: real): real {
    lim.capacity + Accrued(lim, from, to)
  }

  /** One more admission at `now` keeps every window that ends at `now` within its bound. */
  ghost predicate WindowsPermit(lim: Limits, h: seq<Call>, now: real) {
    forall from: real :: from <= now ==>
      AdmittedSince(h, from) as real + 1.0 <= WindowBound(lim, from, now)
  }

  /** Every window of the history is within its bound: the constraint put on any policy. */
  ghost predicate Compliant(lim: Limits, h: seq<Call>) {
    forall from: real, to: real :: from <= to ==>
      AdmittedBetween(h, from, to) as real <= WindowBound(lim, from, to)
  }

  /** The room left at `now` by the window that opens with call k (or at `now`, for k == |h|). */
  ghost function Headroom(lim: Limits, h: seq<Call>, k: nat, now: real): real
    requires k <= |h|
  {
    WindowBound(lim, if k < |h| then h[k].time else now, now) - Admitted(h[k..]) as real
  }

  // ---------------------------------------------------------------- One number stands for the history

  /** Every earlier window still leaves at least the tokens a call finds. */
  lemma {:induction false} AvailableWithinHeadroom(lim: Limits, start: real, h: seq<Call>, k: nat, now: real)
    requires Chronological(start, h) && LastInstant(start, h) <= now && k <= |h|
    ensures Available(lim, start, h, now) <= Headroom(lim, h, k, now)
  {
    if k < |h| {
      AvailableWithinHeadroom(lim, start, Front(h), k, Last(h).time);
      HeadroomStep(lim, h, k, now);
    }
  }

  /** Some window leaves no more than the tokens a call finds. */
  lemma {:induction false} AvailableAttained(lim: Limits, start: real, h: seq<Call>, now: real) returns (k: nat)
    requires Rising(lim) && Chronological(start, h) && LastInstant(start, h) <= now
    ensures k <= |h| && Headroom(lim, h, k, now) <= Available(lim, start, h, now)
  {
    k := |h|;
    if h != [] && Available(lim, start, h, now) < lim.capacity {
      k := AvailableAttained(lim, start, Front(h), Last(h).time);
      HeadroomStep(lim, h, k, now);
    }
  }

  lemma HeadroomStep(lim: Limits, h: seq<Call>, k: nat, now: real)
    requires k < |h|
    ensures Headroom(lim, h, k, now)
         == Headroom(lim, Front(h), k, Last(h).time) + Accrued(lim, Last(h).time, now)
            - (if Last(h).admitted then 1.0 else 0.0)
  {
    assert Front(h[k..]) == Front(h)[k..] && Last(h[k..]) == Last(h);
  }

  /**
   The tokens a call finds are exactly the least headroom over all windows that open with
   an earlier call: `Available` is a lower bound of them, and one of them attains it.
   */
  lemma AvailableIsLeastHeadroom(lim: Limits, start: real, h: seq<Call>, now: real)
    requires Rising(lim) && Chronological(start, h) && LastInstant(start, h) <= now
    ensures forall k: nat :: k <= |h| ==> Available(lim, start, h, now) <= Headroom(lim, h, k, now)
    ensures exists k: nat :: k <= |h| && Available(lim, start, h, now) == Headroom(lim, h, k, now)
  {
    forall k: nat | k <= |h|
      ensures Available(lim, start, h, now) <= Headroom(lim, h, k, now)
    {
      AvailableWithinHeadroom(lim, start, h, k, now);
    }
    var k := AvailableAttained(lim, start, h, now);
  }

  lemma LastIsLatest(start: real, h: seq<Call>, k: nat)
    requires Chronological(start, h) && k < |h|
    ensures start <= h[k].time <= Last(h).time
  {
    if k < |h| - 1 {
      LastIsLatest(start, Front(h), k);
    } else if |h| > 1 {
      LastIsLatest(start, Front(h), 0);
    }
  }

  /** A window that opens at an arbitrary instant counts the calls from some index on. */
  lemma {:induction false} SinceIsSuffix(start: real, h: seq<Call>, from: real) returns (k: nat)
    requires Chronological(start, h)
    ensures k <= |h| && (k < |h| ==> from <= h[k].time)
    ensures AdmittedSince(h, from) == Admitted(h[k..])
  {
    if h == [] {
      k := 0;
    } else if from <= Last(h).time {
      k := SinceIsSuffix(start, Front(h), from);
      assert Front(h[k..]) == Front(h)[k..];
    } else {
      k := |h|;
      NoneSince(start, h, from);
    }
  }

  lemma NoneSince(start: real, h: seq<Call>, from: real)
    requires Chronological(start, h) && LastInstant(start, h) < from
    ensures AdmittedSince(h, from) == 0
  {
    if h != [] && |h| > 1 {
      NoneSince(start, Front(h), from);
    }
  }

  /** The window opened by call k holds at least the admissions from call k on. */
  lemma {:induction false} SuffixWithinWindow(start: real, h: seq<Call>, k: nat)
    requires Chronological(start, h) && k < |h|
    ensures Admitted(h[k..]) <= AdmittedBetween(h, h[k].time, Last(h).time)
    ensures Admitted(h[k..]) <= AdmittedSince(h, h[k].time)
  {
    LastIsLatest(start, h, k);
    var f := Front(h);
    assert Front(h[k..]) == f[k..];
    if k < |f| {
      SuffixWithinWindow(start, f, k);
      BetweenGrows(f, h[k].time, Last(f).time, Last(h).time);
    }
  }

  lemma BetweenGrows(h: seq<Call>, from: real, to: real, later: real)
    requires to <= later
    ensures AdmittedBetween(h, from, to) <= AdmittedBetween(h, from, later) <= AdmittedSince(h, from)
  {
  }

  /** The room a call finds is room in every window that ends with it. */
  lemma RoomInWindow(lim: Limits, start: real, h: seq<Call>, now: real, from: real)
    requires Rising(lim) && Chronological(start, h) && LastInstant(start, h) <= now && from <= now
    ensures AdmittedSince(h, from) as real + Available(lim, start, h, now) <= WindowBound(lim, from, now)
  {
    var k := SinceIsSuffix(start, h, from);
    AvailableWithinHeadroom(lim, start, h, k, now);
  }

  /**
   `allow()` answers true exactly when one more admission keeps every window that ends
   now, of every real length, within capacity + rate * length.
   */
  lemma BucketAgreesWithWindows(lim: Limits, start: real, h: seq<Call>, now: real)
    requires Rising(lim) && Chronological(start, h) && LastInstant(start, h) <= now
    ensures Available(lim, start, h, now) >= 1.0 <==> WindowsPermit(lim, h, now)
  {
    if Available(lim, start, h, now) >= 1.0 {
      forall from: real | from <= now
        ensures AdmittedSince(h, from) as real + 1.0 <= WindowBound(lim, from, now)
      {
        RoomInWindow(lim, start, h, now, from);
      }
    }
    if WindowsPermit(lim, h, now) {
      var k := AvailableAttained(lim, start, h, now);
      if k < |h| {
        LastIsLatest(start, h, k);
        SuffixWithinWindow(start, h, k);
        assert AdmittedSince(h, h[k].time) as real + 1.0 <= WindowBound(lim, h[k].time, now);
      } else {
        assert AdmittedSince(h, now) as real + 1.0 <= WindowBound(lim, now, now);
      }
    }
  }

  /** A bucket that decides every call keeps every window of the run within its bound. */
  lemma {:induction false} BucketIsCompliant(lim: Limits, start: real, h: seq<Call>)
    requires Rising(lim) && Chronological(start, h) && Greedy(lim, start, h)
    ensures Compliant(lim, h)
  {
    forall from: real, to: real | from <= to
      ensures AdmittedBetween(h, from, to) as real <= WindowBound(lim, from, to)
    {
      BucketBoundsWindow(lim, start, h, from, to);
    }
  }

  lemma {:induction false} BucketBoundsWindow(lim: Limits, start: real, h: seq<Call>, from: real, to: real)
    requires Rising(lim) && Chronological(start, h) && Greedy(lim, start, h) && from <= to
    ensures AdmittedBetween(h, from, to) as real <= WindowBound(lim, from, to)
  {
    if h != [] {
      var f, c := Front(h), Last(h);
      if c.admitted && from <= c.time <= to {
        RoomInWindow(lim, start, f, c.time, from);
        BetweenGrows(f, from, to, to);
      } else {
        BucketBoundsWindow(lim, start, f, from, to);
      }
    }
  }

  /** At a steady rate, a window may hold capacity + rate * length. */
  lemma SteadyBound(rate: NonNegative, capacity: NonNegative, from: real, to: real)
    ensures WindowBound(Steady(rate, capacity), from, to) == capacity + rate * (to - from)
  {
  }

  // ---------------------------------------------------------------- Greedy admission is optimal

  /** A compliant history never overdraws the bucket that would have served it. */
  lemma {:induction false} CompliantNeverOverdraws(lim: Limits, start: real, h: seq<Call>)
    requires Rising(lim) && Chronological(start, h) && Compliant(lim, h)
    ensures Level(lim, start, h) >= 0.0
  {
    if h != [] {
      var now := Last(h).time;
      AvailableIsLeastHeadroom(lim, start, h, now);
      var k: nat :| k <= |h| && Available(lim, start, h, now) == Headroom(lim, h, k, now);
      if k < |h| {
        LastIsLatest(start, h, k);
        SuffixWithinWindow(start, h, k);
        assert AdmittedBetween(h, h[k].time, now) as real <= WindowBound(lim, h[k].time, now);
      }
    }
  }

  lemma CompliantFront(lim: Limits, h: seq<Call>)
    requires h != [] && Compliant(lim, h)
    ensures Compliant(lim, Front(h))
  {
    forall from: real, to: real | from <= to
      ensures AdmittedBetween(Front(h), from, to) as real <= WindowBound(lim, from, to)
    {
      assert AdmittedBetween(h, from, to) as real <= WindowBound(lim, from, to);
    }
  }

  ghost predicate SameTrace(g: seq<Call>, o: seq<Call>) {
    |g| == |o| && forall i :: 0 <= i < |g| ==> g[i].time == o[i].time
  }

  /** Refilling two buckets for the same time keeps one from lagging the other by more than `lag`. */
  lemma RefillKeepsLag(lim: Limits, level: real, other: real, lag: nat, from: real, to: real)
    requires other - lag as real <= level
    ensures Refilled(lim, other, from, to) - lag as real <= Refilled(lim, level, from, to)
  {
  }

  /**
   Coupling: the bucket has admitted at least as many requests as the other policy, and
   its level lags the other's by no more than that lead.
   */
  lemma {:induction false} GreedyLeads(lim: Limits, start: real, g: seq<Call>, o: seq<Call>)
    requires SameTrace(g, o) && Chronological(start, g) && Chronological(start, o)
    requires Rising(lim) && Greedy(lim, start, g) && Compliant(lim, o)
    ensures Admitted(o) <= Admitted(g)
    ensures Level(lim, start, o) - (Admitted(g) - Admitted(o)) as real <= Level(lim, start, g)
  {
    if g != [] {
      CompliantFront(lim, o);
      assert SameTrace(Front(g), Front(o));
      GreedyLeads(lim, start, Front(g), Front(o));
      CompliantNeverOverdraws(lim, start, o);
      assert LastInstant(start, Front(g)) == LastInstant(start, Front(o));
      RefillKeepsLag(lim, Level(lim, start, Front(g)), Level(lim, start, Front(o)),
                     Admitted(Front(g)) - Admitted(Front(o)), LastInstant(start, Front(g)), Last(g).time);
    }
  }

  lemma Prefixes(lim: Limits, start: real, h: seq<Call>, n: nat)
    requires n <= |h|
    ensures Chronological(start, h) ==> Chronological(start, h[..n])
    ensures Greedy(lim, start, h) ==> Greedy(lim, start, h[..n])
    ensures Compliant(lim, h) ==> Compliant(lim, h[..n])
    decreases |h|
  {
    if n < |h| {
      assert h[..n] == Front(h)[..n];
      Prefixes(lim, start, Front(h), n);
      if Compliant(lim, h) {
        CompliantFront(lim, h);
      }
    } else {
      assert h[..n] == h;
    }
  }

  /**
   For every request trace and every other policy that keeps all windows within their
   bounds, at every prefix the bucket has admitted at least as many requests.
   */
  lemma GreedyIsOptimal(lim: Limits, start: real, g: seq<Call>, o: seq<Call>)
    requires SameTrace(g, o) && Chronological(start, g) && Chronological(start, o)
    requires Rising(lim) && Greedy(lim, start, g) && Compliant(lim, o)
    ensures forall n :: 0 <= n <= |g| ==> Admitted(o[..n]) <= Admitted(g[..n])
  {
    forall n | 0 <= n <= |g|
      ensures Admitted(o[..n]) <= Admitted(g[..n])
    {
      Prefixes(lim, start, g, n);
      Prefixes(lim, start, o, n);
      GreedyLeads(lim, start, g[..n], o[..n]);
    }
  }

  // ---------------------------------------------------------------- Retry-After: 1

  /** A run in which call i was refused, nothing was admitted afterwards, and a client retries a second later. */
  ghost predicate RetryCase(lim: Limits, start: real, h: seq<Call>, i: nat, now: real) {
    && Chronological(start, h) && Greedy(lim, start, h)
    && i < |h| && (forall j :: i <= j < |h| ==> !h[j].admitted)
    && h[i].time + 1.0 <= now && Last(h).time <= now
  }

  /** The retry is always admitted, however many refused calls fell in the gap. */
  ghost predicate RetryHonoured(lim: Limits) {
    forall start, h, i, now :: RetryCase(lim, start, h, i, now) ==> Available(lim, start, h, now) >= 1.0
  }

  lemma {:induction false} RefusalsOnlyRefill(lim: Limits, start: real, h: seq<Call>, i: nat)
    requires Rising(lim) && Chronological(start, h) && Greedy(lim, start, h)
    requires i < |h| && forall j :: i <= j < |h| ==> !h[j].admitted
    ensures Level(lim, start, h) >= Min(lim.capacity, Accrued(lim, h[i].time, Last(h).time))
  {
    var f, c := Front(h), Last(h);
    if i == |f| {
      BucketIsCompliant(lim, start, h);
      CompliantNeverOverdraws(lim, start, h);
    } else {
      RefusalsOnlyRefill(lim, start, f, i);
    }
  }

  lemma RetrySucceeds(lim: Limits, start: real, h: seq<Call>, i: nat, now: real)
    requires Rising(lim) && lim.capacity >= 1.0 && forall t :: lim.credit(t) + 1.0 <= lim.credit(t + 1.0)
    requires RetryCase(lim, start, h, i, now)
    ensures Available(lim, start, h, now) >= 1.0
  {
    RefusalsOnlyRefill(lim, start, h, i);
    assert lim.credit(h[i].time) + 1.0 <= lim.credit(h[i].time + 1.0) <= lim.credit(now);
  }

  /** `n` requests at one instant. */
  ghost function Burst(n: nat): seq<Call> {
    if n == 0 then [] else Burst(n - 1) + [Call(0.0, true)]
  }

  lemma {:induction false} BurstDrains(lim: Limits, n: nat)
    requires n as real <= lim.capacity
    ensures Chronological(0.0, Burst(n)) && Greedy(lim, 0.0, Burst(n)) && LastInstant(0.0, Burst(n)) == 0.0
    ensures Level(lim, 0.0, Burst(n)) == lim.capacity - n as real
  {
    if n > 0 {
      BurstDrains(lim, n - 1);
      AppendCall(lim, 0.0, Burst(n - 1), Call(0.0, true));
    }
  }

  /** With no refill, or no room for one token, some refused client follows the advice in vain. */
  lemma RetryFails(rate: nat, burst: nat)
    requires rate == 0 || burst == 0
    ensures !RetryHonoured(Steady(rate as real, burst as real))
  {
    var lim := Steady(rate as real, burst as real);
    var refused := Call(0.0, false);
    var h := Burst(burst) + [refused];
    BurstDrains(lim, burst);
    BurstLength(burst);
    AppendCall(lim, 0.0, Burst(burst), refused);
    assert RetryCase(lim, 0.0, h, burst, 1.0);
    assert Available(lim, 0.0, h, 1.0) < 1.0;
  }

  lemma BurstLength(n: nat)
    ensures |Burst(n)| == n
  {
  }

  /**
   The `Retry-After: 1` header is sound exactly for the configurations with a rate and a
   burst of at least one; the configuration accepts zero for both.
   */
  lemma RetryAfterOneSecond(rate: nat, burst: nat)
    ensures RetryHonoured(Steady(rate as real, burst as real)) <==> rate >= 1 && burst >= 1
  {
    var lim := Steady(rate as real, burst as real);
    if rate >= 1 && burst >= 1 {
      SteadyRises(rate as real, burst as real);
      forall t: real
        ensures lim.credit(t) + 1.0 <= lim.credit(t + 1.0)
      {
        assert rate as real * (t + 1.0) == rate as real * t + rate as real;
      }
      forall start, h, i, now | RetryCase(lim, start, h, i, now)
        ensures Available(lim, start, h, now) >= 1.0
      {
        RetrySucceeds(lim, start, h, i, now);
      }
    } else {
      RetryFails(rate, burst);
    }
  }
}

/** The limiter object: the fields the source mutates, tied to the history they stand for. */
module TokenBuckets {
  import opened RateLimiting

  class TokenBucket {
    const rate: NonNegative
    const capacity: NonNegative
    var tokens: real
    var lastRefill: real

    // The calls since the bucket was last filled, and when that was.
    ghost var filledAt: real
    ghost var history: seq<Call>

    ghost predicate Valid()
      reads this
    {
      && Chronological(filledAt, history)
      && Greedy(Steady(rate, capacity), filledAt, history)
      && tokens == Level(Steady(rate, capacity), filledAt, history)
      && lastRefill == LastInstant(filledAt, history)
    }

    constructor (rate: NonNegative, capacity: NonNegative, now: real)
      ensures Valid() && this.rate == rate && this.capacity == capacity
      ensures history == [] && filledAt == now
    {
      this.rate := rate;
      this.capacity := capacity;
      tokens := capacity;
      lastRefill := now;
      filledAt := now;
      history := [];
    }

    /**
     Admits exactly when one more admission keeps every window that ends now within its
     bound, over the whole history since the bucket was filled (SteadyBound spells the bound out).
     */
    method Allow(now: real) returns (allow: bool)
      requires Valid() && lastRefill <= now
      modifies this
      ensures Valid() && filledAt == old(filledAt) && lastRefill == now
      ensures history == old(history) + [Call(now, allow)]
      ensures allow <==> WindowsPermit(Steady(rate, capacity), old(history), now)
    {
      ghost var lim := Steady(rate, capacity);
      SteadyRises(rate, capacity);
      BucketAgreesWithWindows(lim, filledAt, history, now);
      Refill(now);
      allow := tokens >= 1.0;
      if allow {
        tokens := tokens - 1.0;
      }
      AppendCall(lim, filledAt, history, Call(now, allow));
      history := history + [Call(now, allow)];
    }

    /** Restarts the history with a full bucket. */
    method Reset(now: real)
      modifies this
      ensures Valid() && history == [] && filledAt == now && lastRefill == now
      ensures tokens == capacity
    {
      tokens := capacity;
      lastRefill := now;
      filledAt := now;
      history := [];
    }

    method Refill(now: real)
      modifies this`tokens, this`lastRefill
      ensures tokens == Refilled(Steady(rate, capacity), old(tokens), old(lastRefill), now)
      ensures lastRefill == now
    {
      var elapsed := now - lastRefill;
      tokens := Min(capacity, tokens + elapsed * rate);
      lastRefill := now;
    }
  }
}
