/** Arithmetic on reals used by the rate limiter. */
module RealMath {

  function Min(a: real, b: real): real {
    if a <= b then a else b
  }

  function Ceil(x: real): int {
    -((-x).Floor)
  }

  /** What a bucket refilled at `rps` gains in `dt` seconds. */
  function Gain(rps: real, dt: real): real {
    dt * rps
  }

  /** The time that a gain takes. */
  lemma GainTakes(rps: real, gain: real)
    requires rps > 0.0
    ensures Gain(rps, gain / rps) == gain
  {
  }

  lemma GainMonotone(rps: real, a: real, b: real)
    requires a <= b && rps >= 0.0
    ensures Gain(rps, a) <= Gain(rps, b)
  {
  }

  lemma GainStrict(rps: real, a: real, b: real)
    requires a < b && rps > 0.0
    ensures Gain(rps, a) < Gain(rps, b)
  {
  }

  lemma GainAdds(rps: real, a: real, b: real)
    ensures Gain(rps, a + b) == Gain(rps, a) + Gain(rps, b)
  {
  }

  /** The product n * x, for a number of buckets. */
  function Times(n: nat, x: real): real {
    n as real * x
  }

  lemma OneMore(n: nat, x: real)
    ensures Times(n + 1, x) == Times(n, x) + x
  {
  }

  lemma TimesSplits(n: nat, a: nat, x: real, y: real)
    requires a as real == x + y
    ensures (n * a) as real == Times(n, x) + Times(n, y)
  {
    var m, b := n as real, a as real;
    assert (n * a) as real == m * b;
    assert m * b == m * (x + y);
    assert m * (x + y) == m * x + m * y;
  }

  lemma TimesAtLeast(n: nat, x: real)
    requires 0 < n && x >= 0.0
    ensures Times(n, x) >= x
  {
    GainMonotone(x, 1.0, n as real);
  }

  lemma TimesMonotone(m: nat, n: nat, x: real)
    requires m <= n && x >= 0.0
    ensures Times(m, x) <= Times(n, x)
  {
  }

  /** Enough of a positive amount exceeds anything. */
  lemma TimesUnbounded(x: real, y: real) returns (n: nat)
    requires x > 0.0
    ensures Times(n, x) > y
  {
    var q := y / x;
    n := if q < 0.0 then 0 else q.Floor + 1;
    assert q * x == y;
    assert n as real > q;
  }

  lemma TimesExceeds(n: nat, a: nat, x: real)
    requires 0 < n && a as real > x
    ensures (n * a) as real > Times(n, x)
  {
    assert (n * a) as real == n as real * a as real;
  }

  lemma GainNonNegative(rps: real, dt: real)
    requires dt >= 0.0 && rps >= 0.0
    ensures Gain(rps, dt) >= 0.0
  {
  }
}

/**
  The token bucket of one client key: the local one with its reaper, the Redis script with its key expiry, and
  the bucket that is never dropped, which both are meant to behave like. Local times are seconds, Redis times
  are milliseconds.
 */
module TokenBucket {
  import opened Wrappers
  import opened RealMath

  datatype Limits = Limits(rps: real, burst: real)

  datatype Bucket = Bucket(tokens: real, last: real)

  predicate Proper(l: Limits) {
    l.rps > 0.0 && l.burst >= 1.0
  }

  function Refilled(l: Limits, b: Bucket, now: real): real {
    Min(l.burst, b.tokens + Gain(l.rps, now - b.last))
  }

  function Take(tokens: real, now: real): (Bucket, bool) {
    if tokens < 1.0 then (Bucket(tokens, now), false) else (Bucket(tokens - 1.0, now), true)
  }

  /** localBucketStore.allow on one key. */
  function Allow(l: Limits, b: Option<Bucket>, now: real): (Bucket, bool) {
    match b
    case None => (Bucket(l.burst - 1.0, now), true)
    case Some(bucket) => Take(Refilled(l, bucket, now), now)
  }

  const REAP_AGE: real := 600.0

  /** The reaper's test on one bucket. */
  predicate Reapable(b: Bucket, now: real) {
    b.last < now - REAP_AGE
  }

  function Reap(b: Option<Bucket>, now: real): Option<Bucket> {
    if b.Some? && Reapable(b.value, now) then None else b
  }

  /** A bucket is dropped once it has been idle for more than ten minutes, and not at ten minutes sharp. */
  lemma ReapMeans(b: Bucket, now: real)
    ensures Reap(Some(b), now) == if now - b.last > 600.0 then None else Some(b)
    ensures Reap(None, now) == None
  {
  }

  // ---- Request sequences ----

  datatype Event = Request(now: real) | Sweep(now: real)

  predicate Ordered(events: seq<Event>, from: real)
    decreases |events|
  {
    events == [] || (from <= events[0].now && Ordered(events[1..], events[0].now))
  }

  /** One event; `reaping` is false for the bucket that is never dropped. */
  function Step(l: Limits, b: Option<Bucket>, e: Event, reaping: bool): (Option<Bucket>, seq<bool>) {
    match e
    case Request(now) => var (b', ok) := Allow(l, b, now); (Some(b'), [ok])
    case Sweep(now) => (if reaping then Reap(b, now) else b, [])
  }

  /** The decisions made on a sequence of events. */
  function Decisions(l: Limits, b: Option<Bucket>, events: seq<Event>, reaping: bool): seq<bool>
    decreases |events|
  {
    if events == [] then []
    else
      var (b', d) := Step(l, b, events[0], reaping);
      d + Decisions(l, b', events[1..], reaping)
  }

  function Final(l: Limits, b: Option<Bucket>, events: seq<Event>, reaping: bool): Option<Bucket>
    decreases |events|
  {
    if events == [] then b else Final(l, Step(l, b, events[0], reaping).0, events[1..], reaping)
  }

  predicate WellFormed(l: Limits, b: Option<Bucket>, now: real) {
    b.Some? ==> 0.0 <= b.value.tokens <= l.burst && b.value.last <= now
  }

  lemma AllowWellFormed(l: Limits, b: Option<Bucket>, now: real)
    requires Proper(l) && WellFormed(l, b, now)
    ensures WellFormed(l, Some(Allow(l, b, now).0), now)
  {
    if b.Some? {
      GainNonNegative(l.rps, now - b.value.last);
    }
  }

  // ---- Dropping a bucket that has refilled cannot be observed ----

  predicate Full(l: Limits, b: Bucket, now: real) {
    l.burst <= b.tokens + Gain(l.rps, now - b.last)
  }

  lemma FullStaysFull(l: Limits, b: Bucket, now: real, later: real)
    requires Proper(l) && now <= later && Full(l, b, now)
    ensures Full(l, b, later)
  {
    GainMonotone(l.rps, now - b.last, later - b.last);
  }

  /** Two states that no later request can tell apart: equal, or one dropped and the other full again. */
  predicate Alike(l: Limits, b: Option<Bucket>, kept: Option<Bucket>, now: real) {
    b == kept || (b == None && kept.Some? && Full(l, kept.value, now))
  }

  lemma AlikeAllows(l: Limits, b: Option<Bucket>, kept: Option<Bucket>, now: real)
    requires Proper(l) && Alike(l, b, kept, now)
    ensures Allow(l, b, now) == Allow(l, kept, now)
  {
  }

  lemma AlikeLater(l: Limits, b: Option<Bucket>, kept: Option<Bucket>, now: real, later: real)
    requires Proper(l) && Alike(l, b, kept, now) && now <= later
    ensures Alike(l, b, kept, later)
  {
    if b != kept {
      FullStaysFull(l, kept.value, now, later);
    }
  }

  /** When the burst refills within the reap age, a reaped bucket was full. */
  lemma ReapIsAlike(l: Limits, b: Option<Bucket>, kept: Option<Bucket>, now: real)
    requires Proper(l) && l.burst <= Gain(l.rps, REAP_AGE)
    requires Alike(l, b, kept, now) && WellFormed(l, kept, now)
    ensures Alike(l, Reap(b, now), kept, now)
  {
    if b.Some? && Reapable(b.value, now) {
      GainMonotone(l.rps, REAP_AGE, now - b.value.last);
      assert Full(l, b.value, now);
    }
  }

  lemma {:induction false} ReaperInvisible(
      l: Limits, b: Option<Bucket>, kept: Option<Bucket>, events: seq<Event>, from: real)
    requires Proper(l) && l.burst <= Gain(l.rps, REAP_AGE)
    requires Ordered(events, from) && Alike(l, b, kept, from) && WellFormed(l, kept, from)
    ensures Decisions(l, b, events, true) == Decisions(l, kept, events, false)
    decreases |events|
  {
    if events != [] {
      var now := events[0].now;
      AlikeLater(l, b, kept, from, now);
      if events[0].Request? {
        AlikeAllows(l, b, kept, now);
        AllowWellFormed(l, kept, now);
        ReaperInvisible(l, Some(Allow(l, b, now).0), Some(Allow(l, kept, now).0), events[1..], now);
      } else {
        ReapIsAlike(l, b, kept, now);
        ReaperInvisible(l, Reap(b, now), kept, events[1..], now);
      }
    }
  }

  // ---- ... and dropping one that has not, can ----

  lemma RefilledAfter(l: Limits, x: real, t: real, wait: real, gain: real)
    requires Gain(l.rps, wait) == gain
    ensures Refilled(l, Bucket(x, t), t + wait) == Min(l.burst, x + gain)
  {
    assert t + wait - t == wait;
  }

  lemma TakeAtOnce(l: Limits, x: real, t: real)
    requires 0.0 <= x <= l.burst
    ensures Allow(l, Some(Bucket(x, t)), t) == Take(x, t)
  {
    RefilledAfter(l, x, t, 0.0, 0.0);
  }

  /** The time after which a bucket with less than one token has exactly one. */
  lemma WaitForOne(l: Limits, x: real, t: real) returns (when: real)
    requires Proper(l) && 0.0 <= x < 1.0
    ensures t <= when && Allow(l, Some(Bucket(x, t)), when) == (Bucket(0.0, when), true)
    ensures Gain(l.rps, when - t) == 1.0 - x
    ensures forall y :: 0.0 <= y < x ==> !Allow(l, Some(Bucket(y, t)), when).1
  {
    var wait := (1.0 - x) / l.rps;
    when := t + wait;
    assert when - t == wait;
    GainTakes(l.rps, 1.0 - x);
    RefilledAfter(l, x, t, wait, 1.0 - x);
    forall y | 0.0 <= y < x
      ensures !Allow(l, Some(Bucket(y, t)), when).1
    {
      RefilledAfter(l, y, t, wait, 1.0 - x);
    }
  }

  lemma DecisionsCons(l: Limits, b: Option<Bucket>, e: Event, rest: seq<Event>, reaping: bool)
    ensures Decisions(l, b, [e] + rest, reaping) ==
      Step(l, b, e, reaping).1 + Decisions(l, Step(l, b, e, reaping).0, rest, reaping)
    ensures Final(l, b, [e] + rest, reaping) == Final(l, Step(l, b, e, reaping).0, rest, reaping)
  {
    assert ([e] + rest)[1..] == rest;
  }

  lemma OrderedCons(e: Event, rest: seq<Event>, from: real)
    requires from <= e.now && Ordered(rest, e.now)
    ensures Ordered([e] + rest, from)
  {
    assert ([e] + rest)[1..] == rest;
  }

  lemma FirstDecisionDiffers(l: Limits, b: Option<Bucket>, c: Option<Bucket>, now: real, rest: seq<Event>)
    requires Allow(l, b, now).1 != Allow(l, c, now).1
    ensures Decisions(l, b, [Request(now)] + rest, true) != Decisions(l, c, [Request(now)] + rest, false)
  {
    DecisionsCons(l, b, Request(now), rest, true);
    DecisionsCons(l, c, Request(now), rest, false);
    assert Decisions(l, b, [Request(now)] + rest, true)[0] == Allow(l, b, now).1;
    assert Decisions(l, c, [Request(now)] + rest, false)[0] == Allow(l, c, now).1;
  }

  lemma LaterDecisionDiffers(l: Limits, b: Option<Bucket>, c: Option<Bucket>, e: Event, rest: seq<Event>)
    requires Step(l, b, e, true).1 == Step(l, c, e, false).1
    requires Decisions(l, Step(l, b, e, true).0, rest, true) != Decisions(l, Step(l, c, e, false).0, rest, false)
    ensures Decisions(l, b, [e] + rest, true) != Decisions(l, c, [e] + rest, false)
  {
    DecisionsCons(l, b, e, rest, true);
    DecisionsCons(l, c, e, rest, false);
    var d := Step(l, b, e, true).1;
    var p, q := Decisions(l, Step(l, b, e, true).0, rest, true), Decisions(l, Step(l, c, e, false).0, rest, false);
    assert (d + p)[|d|..] == p && (d + q)[|d|..] == q;
  }

  /** Two buckets with different contents are told apart by some later requests. */
  lemma {:induction false} Distinguish(l: Limits, x: real, y: real, t: real) returns (events: seq<Event>)
    requires Proper(l) && 0.0 <= y < x <= l.burst
    ensures Ordered(events, t)
    ensures Decisions(l, Some(Bucket(x, t)), events, true) != Decisions(l, Some(Bucket(y, t)), events, false)
    decreases x.Floor
  {
    var b, c := Some(Bucket(x, t)), Some(Bucket(y, t));
    if x < 1.0 {
      var when := WaitForOne(l, x, t);
      events := [Request(when)] + [];
      OrderedCons(Request(when), [], t);
      FirstDecisionDiffers(l, b, c, when, []);
    } else {
      TakeAtOnce(l, x, t);
      TakeAtOnce(l, y, t);
      var rest: seq<Event> := [];
      if y < 1.0 {
        FirstDecisionDiffers(l, b, c, t, rest);
      } else {
        rest := Distinguish(l, x - 1.0, y - 1.0, t);
        LaterDecisionDiffers(l, b, c, Request(t), rest);
      }
      events := [Request(t)] + rest;
      OrderedCons(Request(t), rest, t);
    }
  }

  function Admitted(decisions: seq<bool>): nat {
    if decisions == [] then 0 else (if decisions[0] then 1 else 0) + Admitted(decisions[1..])
  }

  lemma {:induction false} AdmittedConcat(a: seq<bool>, b: seq<bool>)
    ensures Admitted(a + b) == Admitted(a) + Admitted(b)
    decreases |a|
  {
    if a == [] {
      assert a + b == b;
    } else {
      assert (a + b)[1..] == a[1..] + b;
      AdmittedConcat(a[1..], b);
    }
  }

  /** Everything the bucket had, and everything it gained, has been handed out: it is empty at `end`. */
  ghost predicate Drained(l: Limits, b: Option<Bucket>, had: real, t: real, events: seq<Event>, end: real) {
    && Ordered(events, t) && t <= end && (forall e :: e in events ==> e.now <= end)
    && forall reaping ::
         && Final(l, b, events, reaping) == Some(Bucket(0.0, end))
         && Admitted(Decisions(l, b, events, reaping)) as real == had + Gain(l.rps, end - t)
  }

  lemma DrainedCons(l: Limits, b: Option<Bucket>, had: real, t: real, first: real, rest: seq<Event>, end: real)
    requires t <= first && Allow(l, b, first).1
    requires Drained(l, Some(Allow(l, b, first).0), had + Gain(l.rps, first - t) - 1.0, first, rest, end)
    ensures Drained(l, b, had, t, [Request(first)] + rest, end)
  {
    OrderedCons(Request(first), rest, t);
    GainAdds(l.rps, first - t, end - first);
    assert first - t + (end - first) == end - t;
    forall reaping
      ensures Final(l, b, [Request(first)] + rest, reaping) == Some(Bucket(0.0, end))
      ensures Admitted(Decisions(l, b, [Request(first)] + rest, reaping)) as real == had + Gain(l.rps, end - t)
    {
      DecisionsCons(l, b, Request(first), rest, reaping);
      AdmittedConcat([true], Decisions(l, Some(Allow(l, b, first).0), rest, reaping));
      assert Admitted([true]) == 1;
    }
  }

  lemma EmptyIsDrained(l: Limits, t: real)
    ensures Drained(l, Some(Bucket(0.0, t)), 0.0, t, [], t)
  {
    assert Gain(l.rps, t - t) == 0.0;
  }

  lemma DrainLast(l: Limits, x: real, t: real) returns (events: seq<Event>, end: real)
    requires Proper(l) && 0.0 <= x < 1.0
    ensures Drained(l, Some(Bucket(x, t)), x, t, events, end)
  {
    end := WaitForOne(l, x, t);
    events := [Request(end)] + [];
    EmptyIsDrained(l, end);
    DrainedCons(l, Some(Bucket(x, t)), x, t, end, [], end);
  }

  /** Requests that empty the bucket exactly. */
  lemma {:induction false} Drain(l: Limits, x: real, t: real) returns (events: seq<Event>, end: real)
    requires Proper(l) && 0.0 <= x <= l.burst
    ensures Drained(l, Some(Bucket(x, t)), x, t, events, end)
    decreases x.Floor
  {
    if x < 1.0 {
      events, end := DrainLast(l, x, t);
    } else {
      TakeAtOnce(l, x, t);
      var rest;
      rest, end := Drain(l, x - 1.0, t);
      events := [Request(t)] + rest;
      assert Gain(l.rps, t - t) == 0.0;
      DrainedCons(l, Some(Bucket(x, t)), x, t, t, rest, end);
    }
  }

  /** The same from no bucket at all, which counts as a full one. */
  lemma DrainFresh(l: Limits, t: real) returns (events: seq<Event>, end: real)
    requires Proper(l)
    ensures Drained(l, None, l.burst, t, events, end)
  {
    var rest;
    rest, end := Drain(l, l.burst - 1.0, t);
    events := [Request(t)] + rest;
    DrainedCons(l, None, l.burst, t, t, rest, end);
  }

  lemma {:induction false} DecisionsConcat(l: Limits, b: Option<Bucket>, a: seq<Event>, c: seq<Event>, reaping: bool)
    ensures Decisions(l, b, a + c, reaping) ==
      Decisions(l, b, a, reaping) + Decisions(l, Final(l, b, a, reaping), c, reaping)
    decreases |a|
  {
    if a == [] {
      assert a + c == c;
    } else {
      assert (a + c)[1..] == a[1..] + c;
      DecisionsConcat(l, Step(l, b, a[0], reaping).0, a[1..], c, reaping);
    }
  }

  lemma {:induction false} OrderedConcat(a: seq<Event>, c: seq<Event>, from: real, mid: real)
    requires Ordered(a, from) && Ordered(c, mid) && from <= mid && forall e :: e in a ==> e.now <= mid
    ensures Ordered(a + c, from)
    decreases |a|
  {
    if a == [] {
      assert a + c == c;
    } else {
      assert (a + c)[1..] == a[1..] + c;
      OrderedConcat(a[1..], c, a[0].now, mid);
    }
  }

  /** From an empty bucket: with a burst that needs longer than the reap age, the reaper shows. */
  lemma ReapOfEmptyShows(l: Limits, t: real) returns (events: seq<Event>)
    requires Proper(l) && l.burst > Gain(l.rps, REAP_AGE)
    ensures Ordered(events, t)
    ensures Decisions(l, Some(Bucket(0.0, t)), events, true) != Decisions(l, Some(Bucket(0.0, t)), events, false)
  {
    var now, tokens := HalfwayIdle(l, t);
    var empty := Some(Bucket(0.0, t));
    var rest: seq<Event> := [];
    if tokens < 1.0 {
      FirstDecisionDiffers(l, None, empty, now, rest);
    } else {
      rest := Distinguish(l, l.burst - 1.0, tokens - 1.0, now);
      LaterDecisionDiffers(l, None, empty, Request(now), rest);
    }
    OrderedCons(Request(now), rest, now);
    OrderedCons(Sweep(now), [Request(now)] + rest, t);
    LaterDecisionDiffers(l, empty, empty, Sweep(now), [Request(now)] + rest);
    events := [Sweep(now)] + ([Request(now)] + rest);
  }

  /** Idle past the reap age, yet not long enough to refill the burst. */
  lemma HalfwayIdle(l: Limits, t: real) returns (now: real, tokens: real)
    requires Proper(l) && l.burst > Gain(l.rps, REAP_AGE)
    ensures t <= now && Reapable(Bucket(0.0, t), now)
    ensures 0.0 <= tokens < l.burst && Refilled(l, Bucket(0.0, t), now) == tokens == Gain(l.rps, now - t)
    ensures tokens == (l.burst + Gain(l.rps, REAP_AGE)) / 2.0
  {
    var need := l.burst / l.rps;
    GainTakes(l.rps, l.burst);
    assert need > REAP_AGE by {
      if need <= REAP_AGE {
        GainMonotone(l.rps, need, REAP_AGE);
      }
    }
    var idle := (need + REAP_AGE) / 2.0;
    now, tokens := t + idle, Gain(l.rps, idle);
    assert now - t == idle;
    RefilledAfter(l, 0.0, t, idle, tokens);
    GainNonNegative(l.rps, idle);
    assert tokens == (l.burst + Gain(l.rps, REAP_AGE)) / 2.0;
  }

  lemma {:induction false} SameLength(l: Limits, b: Option<Bucket>, c: Option<Bucket>, events: seq<Event>)
    ensures |Decisions(l, b, events, true)| == |Decisions(l, c, events, false)|
    decreases |events|
  {
    if events != [] {
      SameLength(l, Step(l, b, events[0], true).0, Step(l, c, events[0], false).0, events[1..]);
    }
  }

  /**
    The reaper is invisible, on every ordered sequence of requests and sweeps from an empty store, if and only if
    a burst refills within the reap age.
   */
  lemma ReaperInvisibleIff(l: Limits)
    requires Proper(l)
    ensures l.burst <= Gain(l.rps, REAP_AGE) <==>
      forall events :: Ordered(events, 0.0) ==> Decisions(l, None, events, true) == Decisions(l, None, events, false)
  {
    if l.burst <= Gain(l.rps, REAP_AGE) {
      forall events | Ordered(events, 0.0)
        ensures Decisions(l, None, events, true) == Decisions(l, None, events, false)
      {
        ReaperInvisible(l, None, None, events, 0.0);
      }
    } else {
      var drain, end := DrainFresh(l, 0.0);
      var show := ReapOfEmptyShows(l, end);
      OrderedConcat(drain, show, 0.0, end);
      DecisionsConcat(l, None, drain, show, true);
      DecisionsConcat(l, None, drain, show, false);
      SameLength(l, None, None, drain);
      var n := |Decisions(l, None, drain, true)|;
      assert Decisions(l, None, drain + show, true)[n..] != Decisions(l, None, drain + show, false)[n..];
    }
  }

  // ---- How much one bucket admits ----

  /** The most a bucket can still admit from `now` until `until`. */
  function Capacity(l: Limits, b: Option<Bucket>, now: real, until: real): real {
    (if b.None? then l.burst else Refilled(l, b.value, now)) + Gain(l.rps, until - now)
  }

  /** What one bucket is meant to admit in a window: burst + rps * T. */
  function Allowance(l: Limits, from: real, until: real): real {
    l.burst + Gain(l.rps, until - from)
  }

  lemma CapacityShrinks(l: Limits, b: Option<Bucket>, now: real, later: real, until: real)
    requires Proper(l) && now <= later
    ensures Capacity(l, b, later, until) <= Capacity(l, b, now, until)
  {
    GainNonNegative(l.rps, later - now);
  }

  lemma CapacitySpent(l: Limits, b: Option<Bucket>, now: real, until: real)
    requires Proper(l) && WellFormed(l, b, now)
    ensures var (b', ok) := Allow(l, b, now);
      Capacity(l, Some(b'), now, until) + (if ok then 1.0 else 0.0) <= Capacity(l, b, now, until)
  {
    AllowWellFormed(l, b, now);
    var (b', ok) := Allow(l, b, now);
    RefilledAfter(l, b'.tokens, now, 0.0, 0.0);
  }

  lemma CapacityOfFull(l: Limits, b: Bucket, now: real, until: real)
    requires Full(l, b, now)
    ensures Capacity(l, None, now, until) == Capacity(l, Some(b), now, until)
  {
  }

  lemma CapacityBound(l: Limits, b: Option<Bucket>, from: real, now: real, until: real)
    requires Proper(l) && from <= now
    ensures Capacity(l, b, now, until) <= Allowance(l, from, until)
  {
    GainMonotone(l.rps, until - now, until - from);
  }

  lemma CapacityNonNegative(l: Limits, b: Option<Bucket>, now: real, until: real)
    requires Proper(l) && WellFormed(l, b, now) && now <= until
    ensures Capacity(l, b, now, until) >= 0.0
  {
    GainNonNegative(l.rps, until - now);
    if b.Some? {
      GainNonNegative(l.rps, now - b.value.last);
      assert b.value.tokens + Gain(l.rps, now - b.value.last) >= 0.0;
    }
  }

  lemma {:induction false} AdmittedWithinCapacity(
      l: Limits, b: Option<Bucket>, events: seq<Event>, from: real, until: real)
    requires Proper(l) && l.burst <= Gain(l.rps, REAP_AGE) && WellFormed(l, b, from)
    requires Ordered(events, from) && from <= until && forall e :: e in events ==> e.now <= until
    ensures Admitted(Decisions(l, b, events, true)) as real <= Capacity(l, b, from, until)
    decreases |events|
  {
    if events == [] {
      CapacityNonNegative(l, b, from, until);
    } else {
      var now := events[0].now;
      var (b', d) := Step(l, b, events[0], true);
      assert Decisions(l, b, events, true) == d + Decisions(l, b', events[1..], true);
      CapacityShrinks(l, b, from, now, until);
      if events[0].Request? {
        CapacitySpent(l, b, now, until);
        AllowWellFormed(l, b, now);
        assert (d + Decisions(l, b', events[1..], true))[1..] == Decisions(l, b', events[1..], true);
      } else {
        ReapIsAlike(l, b, b, now);
        assert d + Decisions(l, b', events[1..], true) == Decisions(l, b', events[1..], true);
      }
      AdmittedWithinCapacity(l, b', events[1..], now, until);
    }
  }

  /** In any window one bucket admits at most burst + rps * T, whatever state it enters the window in. */
  lemma LocalWindowBound(l: Limits, b: Option<Bucket>, events: seq<Event>, from: real, until: real)
    requires Proper(l) && l.burst <= Gain(l.rps, REAP_AGE) && WellFormed(l, b, from)
    requires Ordered(events, from) && from <= until && forall e :: e in events ==> e.now <= until
    ensures Admitted(Decisions(l, b, events, true)) as real <= Allowance(l, from, until)
  {
    AdmittedWithinCapacity(l, b, events, from, until);
    CapacityBound(l, b, from, from, until);
  }

  /** Between two drainings the reaper gives back a whole burst that had not been earned yet. */
  lemma ReapingOverflows(l: Limits) returns (events: seq<Event>, until: real)
    requires Proper(l) && l.burst > Gain(l.rps, REAP_AGE)
    ensures Ordered(events, 0.0) && 0.0 <= until && (forall e :: e in events ==> e.now <= until)
    ensures Admitted(Decisions(l, None, events, true)) as real > Allowance(l, 0.0, until)
  {
    var first, end := DrainFresh(l, 0.0);
    var now, tokens := HalfwayIdle(l, end);
    var second;
    second, until := DrainFresh(l, now);
    var later := [Sweep(now)] + second;
    events := first + later;
    OrderedCons(Sweep(now), second, end);
    OrderedConcat(first, later, 0.0, end);
    DecisionsConcat(l, None, first, later, true);
    DecisionsCons(l, Some(Bucket(0.0, end)), Sweep(now), second, true);
    assert [] + Decisions(l, None, second, true) == Decisions(l, None, second, true);
    AdmittedConcat(Decisions(l, None, first, true), Decisions(l, None, second, true));
    GainAdds(l.rps, end - 0.0, now - end);
    GainAdds(l.rps, now - 0.0, until - now);
    assert end - 0.0 + (now - end) == now - 0.0 && now - 0.0 + (until - now) == until - 0.0;
  }

  /** The window bound holds of every sequence of events if and only if a burst refills within the reap age. */
  lemma LocalWindowBoundIff(l: Limits)
    requires Proper(l)
    ensures l.burst <= Gain(l.rps, REAP_AGE) <==>
      forall events, until :: Within(events, until) ==>
        Admitted(Decisions(l, None, events, true)) as real <= Allowance(l, 0.0, until)
  {
    if l.burst <= Gain(l.rps, REAP_AGE) {
      forall events, until | Within(events, until)
        ensures Admitted(Decisions(l, None, events, true)) as real <= Allowance(l, 0.0, until)
      {
        LocalWindowBound(l, None, events, 0.0, until);
      }
    } else {
      var events, until := ReapingOverflows(l);
      assert Within(events, until);
    }
  }

  ghost predicate Within(events: seq<Event>, until: real) {
    Ordered(events, 0.0) && 0.0 <= until && forall e :: e in events ==> e.now <= until
  }
}
