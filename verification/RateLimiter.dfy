/**
  The Redis rate limiter: the allow script with its computed key expiry, compared with the bucket that is never
  dropped, and a fleet of replicas that fall back to their local buckets when Redis fails. Times are milliseconds,
  whole or not, of one clock that never goes back.
 */
module RateLimiter {
  import opened Wrappers
  import opened RealMath
  import opened TokenBucket

  /** The stored hash and the time its key expires. */
  datatype Stored = Stored(tokens: real, ts: real, expires: real)

  function Seconds(ms: real): real {
    ms / 1000.0
  }

  /** Time to refill an empty bucket, rounded up, plus one second. */
  function TtlMs(l: Limits): real {
    if l.rps > 0.0 then (Ceil(l.burst / l.rps * 1000.0) + 1000) as real else 60_000.0
  }

  /** allowScript; a key past its expiry reads as missing. */
  function Script(l: Limits, stored: Option<Stored>, now: real): (Stored, bool) {
    if stored.None? || stored.value.expires <= now then
      (Stored(l.burst - 1.0, now, now + TtlMs(l)), true)
    else
      var elapsed := if now < stored.value.ts then 0.0 else Seconds(now - stored.value.ts);
      var tokens := Min(l.burst, stored.value.tokens + Gain(l.rps, elapsed));
      if tokens >= 1.0 then (Stored(tokens - 1.0, now, now + TtlMs(l)), true)
      else (Stored(tokens, now, now + TtlMs(l)), false)
  }

  function AsBucket(s: Stored): Bucket {
    Bucket(s.tokens, Seconds(s.ts))
  }

  /** The bucket that the script would find at `now`. */
  function Visible(stored: Option<Stored>, now: real): Option<Bucket> {
    if stored.Some? && now < stored.value.expires then Some(AsBucket(stored.value)) else None
  }

  predicate StoredOk(l: Limits, stored: Option<Stored>, now: real) {
    stored.Some? ==>
      && 0.0 <= stored.value.tokens <= l.burst
      && stored.value.ts <= now
      && stored.value.expires == stored.value.ts + TtlMs(l)
  }

  /** The script decides and updates exactly as localBucketStore.allow does on the bucket it finds. */
  lemma ScriptIsAllow(l: Limits, stored: Option<Stored>, now: real)
    requires Proper(l) && StoredOk(l, stored, now)
    ensures var (s', ok) := Script(l, stored, now);
      && (AsBucket(s'), ok) == Allow(l, Visible(stored, now), Seconds(now))
      && s'.expires == now + TtlMs(l) && s'.ts == now
      && StoredOk(l, Some(s'), now)
  {
    AllowWellFormed(l, Visible(stored, now), Seconds(now));
    if Visible(stored, now).Some? {
      assert Seconds(now - stored.value.ts) == Seconds(now) - Seconds(stored.value.ts);
    }
  }

  /** The lifetime is the time to refill an empty bucket and one second, rounded up to a whole millisecond. */
  lemma TtlMeans(l: Limits)
    requires l.rps > 0.0
    ensures var refill := l.burst / l.rps * 1000.0; refill + 1000.0 <= TtlMs(l) < refill + 1001.0
  {
  }

  lemma CeilAbove(x: real)
    ensures x <= Ceil(x) as real
  {
  }

  /** Once its key has expired, a bucket has refilled. */
  lemma ExpiredIsFull(l: Limits, stored: Stored, now: real)
    requires Proper(l) && StoredOk(l, Some(stored), now) && stored.expires <= now
    ensures Full(l, AsBucket(stored), Seconds(now))
  {
    var need := l.burst / l.rps;
    CeilAbove(need * 1000.0);
    assert need * 1000.0 <= now - stored.ts;
    assert need <= Seconds(now) - Seconds(stored.ts);
    GainTakes(l.rps, l.burst);
    GainMonotone(l.rps, need, Seconds(now) - Seconds(stored.ts));
  }

  // ---- Expiry cannot be observed ----

  /** The times, in milliseconds, of the requests among the events. */
  function RequestTimes(events: seq<Event>): seq<real> {
    if events == [] then []
    else if events[0].Sweep? then RequestTimes(events[1..])
    else [events[0].now * 1000.0] + RequestTimes(events[1..])
  }

  function RedisDecisions(l: Limits, stored: Option<Stored>, times: seq<real>): seq<bool>
    decreases |times|
  {
    if times == [] then []
    else
      var (s', ok) := Script(l, stored, times[0]);
      [ok] + RedisDecisions(l, Some(s'), times[1..])
  }

  lemma OneRequest(l: Limits, stored: Option<Stored>, kept: Option<Bucket>, now: real)
    requires Proper(l) && StoredOk(l, stored, now)
    requires if stored.Some? then kept == Some(AsBucket(stored.value)) else kept == None
    ensures var (s', ok) := Script(l, stored, now);
      StoredOk(l, Some(s'), now) && (AsBucket(s'), ok) == Allow(l, kept, Seconds(now))
  {
    if stored.Some? && stored.value.expires <= now {
      ExpiredIsFull(l, stored.value, now);
    }
    AlikeAllows(l, Visible(stored, now), kept, Seconds(now));
    ScriptIsAllow(l, stored, now);
  }

  /** On its requests the Redis bucket decides as the bucket that is never dropped. */
  lemma {:induction false} ExpiryInvisible(
      l: Limits, stored: Option<Stored>, kept: Option<Bucket>, events: seq<Event>, from: real)
    requires Proper(l) && Ordered(events, from) && StoredOk(l, stored, from * 1000.0)
    requires if stored.Some? then kept == Some(AsBucket(stored.value)) else kept == None
    ensures RedisDecisions(l, stored, RequestTimes(events)) == Decisions(l, kept, events, false)
    decreases |events|
  {
    if events != [] {
      var now := events[0].now;
      if events[0].Sweep? {
        ExpiryInvisible(l, stored, kept, events[1..], now);
      } else {
        assert Seconds(now * 1000.0) == now;
        OneRequest(l, stored, kept, now * 1000.0);
        var (s', ok) := Script(l, stored, now * 1000.0);
        assert RequestTimes(events)[1..] == RequestTimes(events[1..]);
        ExpiryInvisible(l, Some(s'), Some(AsBucket(s')), events[1..], now);
      }
    }
  }

  /**
    On every sequence of requests and sweeps, the Redis bucket with its computed expiry decides as the bucket that is
    never dropped, and, when a burst refills within the reap age, as the local bucket with its reaper.
   */
  lemma RedisLocalAndKeptAgree(l: Limits, events: seq<Event>, from: real)
    requires Proper(l) && Ordered(events, from)
    ensures RedisDecisions(l, None, RequestTimes(events)) == Decisions(l, None, events, false)
    ensures l.burst <= Gain(l.rps, REAP_AGE) ==>
      RedisDecisions(l, None, RequestTimes(events)) == Decisions(l, None, events, true)
  {
    ExpiryInvisible(l, None, None, events, from);
    if l.burst <= Gain(l.rps, REAP_AGE) {
      ReaperInvisible(l, None, None, events, from);
    }
  }

  /** Redis and the local bucket agree on every sequence if and only if a burst refills within the reap age. */
  lemma RedisAndLocalAgreeIff(l: Limits)
    requires Proper(l)
    ensures l.burst <= Gain(l.rps, REAP_AGE) <==>
      forall events :: Ordered(events, 0.0) ==>
        RedisDecisions(l, None, RequestTimes(events)) == Decisions(l, None, events, true)
  {
    forall events | Ordered(events, 0.0)
      ensures RedisDecisions(l, None, RequestTimes(events)) == Decisions(l, None, events, false)
    {
      ExpiryInvisible(l, None, None, events, 0.0);
    }
    ReaperInvisibleIff(l);
  }

  // ---- A fleet of replicas sharing one Redis ----

  /** What became of the script call: answered, not run, or run with its reply lost. */
  datatype Outcome = Answered | Unreachable | ReplyLost

  datatype FleetEvent = Call(replica: nat, now: real, outcome: Outcome) | LocalSweep(replica: nat, now: real)

  /** The shared key and each replica's fallback bucket for it. */
  datatype Fleet = Fleet(redis: Option<Stored>, locals: seq<Option<Bucket>>)

  /** redisBucketStore.allow: the script's answer, or on any error the replica's own bucket. */
  function FleetStep(l: Limits, f: Fleet, e: FleetEvent): (r: (Fleet, bool))
    requires e.replica < |f.locals|
    ensures |r.0.locals| == |f.locals|
  {
    match e
    case LocalSweep(i, now) => (f.(locals := f.locals[i := Reap(f.locals[i], Seconds(now))]), false)
    case Call(i, now, outcome) =>
      var (s', ok) := Script(l, f.redis, now);
      if outcome == Answered then (f.(redis := Some(s')), ok)
      else
        var (b', localOk) := Allow(l, f.locals[i], Seconds(now));
        (Fleet(if outcome == ReplyLost then Some(s') else f.redis, f.locals[i := Some(b')]), localOk)
  }

  predicate Schedule(events: seq<FleetEvent>, from: real, until: real)
    decreases |events|
  {
    events == [] || (from <= events[0].now <= until && Schedule(events[1..], events[0].now, until))
  }

  /** The event is decided by the shared bucket, or else by the replica's own. */
  predicate Shared(e: FleetEvent) {
    e.Call? && e.outcome == Answered
  }

  /** Requests admitted by the shared bucket, or by the replicas' own. */
  function FleetAdmitted(l: Limits, f: Fleet, events: seq<FleetEvent>, shared: bool): nat
    requires forall e :: e in events ==> e.replica < |f.locals|
    decreases |events|
  {
    if events == [] then 0
    else
      var (f', ok) := FleetStep(l, f, events[0]);
      (if ok && Shared(events[0]) == shared then 1 else 0) + FleetAdmitted(l, f', events[1..], shared)
  }

  // ---- Each bucket sees its own requests ----

  function FleetFinal(l: Limits, f: Fleet, events: seq<FleetEvent>): (g: Fleet)
    requires forall e :: e in events ==> e.replica < |f.locals|
    ensures |g.locals| == |f.locals|
    decreases |events|
  {
    if events == [] then f else FleetFinal(l, FleetStep(l, f, events[0]).0, events[1..])
  }

  /** The replica's calls that Redis did not answer, and its sweeps. */
  function LocalEvents(events: seq<FleetEvent>, i: nat): seq<Event> {
    if events == [] then []
    else
      var e, rest := events[0], LocalEvents(events[1..], i);
      if e.replica != i then rest
      else if e.LocalSweep? then [Sweep(e.now / 1000.0)] + rest
      else if e.outcome == Answered then rest
      else [Request(e.now / 1000.0)] + rest
  }

  /** The calls that reach Redis, with or without an answer. */
  function Reaching(events: seq<FleetEvent>): seq<real> {
    if events == [] then []
    else if events[0].Call? && events[0].outcome != Unreachable then [events[0].now] + Reaching(events[1..])
    else Reaching(events[1..])
  }

  function RedisFinal(l: Limits, stored: Option<Stored>, times: seq<real>): Option<Stored>
    decreases |times|
  {
    if times == [] then stored else RedisFinal(l, Some(Script(l, stored, times[0]).0), times[1..])
  }

  /** The decisions that the replica's own bucket makes. */
  function LocalDecisions(l: Limits, f: Fleet, events: seq<FleetEvent>, i: nat): seq<bool>
    requires forall e :: e in events ==> e.replica < |f.locals|
    decreases |events|
  {
    if events == [] then []
    else
      var (f', ok) := FleetStep(l, f, events[0]);
      (if events[0].Call? && events[0].replica == i && events[0].outcome != Answered then [ok] else []) +
      LocalDecisions(l, f', events[1..], i)
  }

  /** What Redis answers to the calls that reach it; an answer that is lost is not seen. */
  function SharedDecisions(l: Limits, f: Fleet, events: seq<FleetEvent>): seq<Option<bool>>
    requires forall e :: e in events ==> e.replica < |f.locals|
    decreases |events|
  {
    if events == [] then []
    else
      var (f', ok) := FleetStep(l, f, events[0]);
      var rest := SharedDecisions(l, f', events[1..]);
      if events[0].LocalSweep? || events[0].outcome == Unreachable then rest
      else [if events[0].outcome == Answered then Some(ok) else None] + rest
  }

  /** A replica's own bucket is the local bucket on exactly the calls Redis did not answer, and on its sweeps. */
  lemma {:induction false} LocalSeesItsOwn(l: Limits, f: Fleet, events: seq<FleetEvent>, i: nat)
    requires i < |f.locals| && forall e :: e in events ==> e.replica < |f.locals|
    ensures LocalDecisions(l, f, events, i) == Decisions(l, f.locals[i], LocalEvents(events, i), true)
    ensures FleetFinal(l, f, events).locals[i] == Final(l, f.locals[i], LocalEvents(events, i), true)
    decreases |events|
  {
    if events != [] {
      var e, f' := events[0], FleetStep(l, f, events[0]).0;
      LocalSeesItsOwn(l, f', events[1..], i);
      if e.replica == i && (e.LocalSweep? || e.outcome != Answered) {
        var own := LocalEvents(events, i);
        assert own[1..] == LocalEvents(events[1..], i);
        assert Step(l, f.locals[i], own[0], true).0 == f'.locals[i];
      } else {
        assert f'.locals[i] == f.locals[i];
      }
    }
  }

  /** The shared bucket is the Redis bucket on exactly the calls that reach it, answered or not. */
  lemma {:induction false} SharedSeesItsOwn(l: Limits, f: Fleet, events: seq<FleetEvent>)
    requires forall e :: e in events ==> e.replica < |f.locals|
    ensures FleetFinal(l, f, events).redis == RedisFinal(l, f.redis, Reaching(events))
    ensures var seen, made := SharedDecisions(l, f, events), RedisDecisions(l, f.redis, Reaching(events));
      |seen| == |made| && forall j :: 0 <= j < |seen| && seen[j].Some? ==> seen[j].value == made[j]
    decreases |events|
  {
    if events != [] {
      var e, f' := events[0], FleetStep(l, f, events[0]).0;
      SharedSeesItsOwn(l, f', events[1..]);
      if e.Call? && e.outcome != Unreachable {
        assert Reaching(events)[1..] == Reaching(events[1..]);
      }
    }
  }

  ghost predicate FleetOk(l: Limits, f: Fleet, now: real) {
    StoredOk(l, f.redis, now) && forall i :: 0 <= i < |f.locals| ==> WellFormed(l, f.locals[i], Seconds(now))
  }

  /** The capacities of the local buckets together. */
  function SumCapacity(l: Limits, locals: seq<Option<Bucket>>, now: real, until: real): real {
    if locals == [] then 0.0
    else Capacity(l, locals[0], now, until) + SumCapacity(l, locals[1..], now, until)
  }

  /** What the shared bucket can still admit. */
  function SharedCapacity(l: Limits, stored: Option<Stored>, now: real, until: real): real {
    Capacity(l, Visible(stored, now), Seconds(now), Seconds(until))
  }

  lemma {:induction false} SumShrinks(l: Limits, locals: seq<Option<Bucket>>, now: real, later: real, until: real)
    requires Proper(l) && now <= later
    ensures SumCapacity(l, locals, later, until) <= SumCapacity(l, locals, now, until)
  {
    if locals != [] {
      CapacityShrinks(l, locals[0], now, later, until);
      SumShrinks(l, locals[1..], now, later, until);
    }
  }

  lemma {:induction false} SumUpdate(
      l: Limits, locals: seq<Option<Bucket>>, i: nat, b: Option<Bucket>, now: real, until: real)
    requires i < |locals|
    ensures SumCapacity(l, locals[i := b], now, until) ==
      SumCapacity(l, locals, now, until) - Capacity(l, locals[i], now, until) + Capacity(l, b, now, until)
  {
    if i == 0 {
      assert locals[i := b][1..] == locals[1..];
    } else {
      assert locals[i := b][1..] == locals[1..][i - 1 := b];
      SumUpdate(l, locals[1..], i - 1, b, now, until);
    }
  }

  lemma {:induction false} SumBound(l: Limits, locals: seq<Option<Bucket>>, now: real, until: real)
    requires Proper(l)
    requires forall i :: 0 <= i < |locals| ==> WellFormed(l, locals[i], now)
    requires now <= until
    ensures 0.0 <= SumCapacity(l, locals, now, until) <= Times(|locals|, Allowance(l, now, until))
  {
    if locals != [] {
      CapacityBound(l, locals[0], now, now, until);
      CapacityNonNegative(l, locals[0], now, until);
      SumBound(l, locals[1..], now, until);
      OneMore(|locals| - 1, Allowance(l, now, until));
    }
  }

  /** Time passing, expiry of the shared key included, never adds capacity. */
  lemma VisibleShrinks(l: Limits, stored: Option<Stored>, from: real, now: real, until: real)
    requires Proper(l) && StoredOk(l, stored, from) && from <= now
    ensures Capacity(l, Visible(stored, now), Seconds(now), Seconds(until)) <=
            Capacity(l, Visible(stored, from), Seconds(from), Seconds(until))
  {
    CapacityShrinks(l, Visible(stored, from), Seconds(from), Seconds(now), Seconds(until));
    if Visible(stored, from).Some? && Visible(stored, now).None? {
      ExpiredIsFull(l, stored.value, now);
      CapacityOfFull(l, AsBucket(stored.value), Seconds(now), Seconds(until));
    }
  }

  lemma ScriptSpends(l: Limits, stored: Option<Stored>, now: real, until: real)
    requires Proper(l) && StoredOk(l, stored, now)
    ensures var (s', ok) := Script(l, stored, now);
      && StoredOk(l, Some(s'), now)
      && Capacity(l, Visible(Some(s'), now), Seconds(now), Seconds(until)) + (if ok then 1.0 else 0.0) <=
         Capacity(l, Visible(stored, now), Seconds(now), Seconds(until))
  {
    ScriptIsAllow(l, stored, now);
    CapacitySpent(l, Visible(stored, now), Seconds(now), Seconds(until));
    TtlPositive(l);
  }

  lemma TtlPositive(l: Limits)
    requires Proper(l)
    ensures 0.0 < TtlMs(l)
  {
    CeilAbove(l.burst / l.rps * 1000.0);
    assert l.burst / l.rps * 1000.0 >= 0.0;
  }

  lemma FleetStepOk(l: Limits, f: Fleet, e: FleetEvent)
    requires Proper(l) && FleetOk(l, f, e.now) && e.replica < |f.locals|
    ensures FleetOk(l, FleetStep(l, f, e).0, e.now)
  {
    if e.Call? {
      ScriptIsAllow(l, f.redis, e.now);
      AllowWellFormed(l, f.locals[e.replica], Seconds(e.now));
    }
  }

  /** A step admits through Redis at most what it takes from the shared bucket. */
  lemma SharedStepSpends(l: Limits, f: Fleet, e: FleetEvent, until: real)
    requires Proper(l) && FleetOk(l, f, e.now) && e.replica < |f.locals|
    ensures var (f', ok) := FleetStep(l, f, e);
      SharedCapacity(l, f'.redis, e.now, until) + (if ok && Shared(e) then 1.0 else 0.0) <=
      SharedCapacity(l, f.redis, e.now, until)
  {
    ScriptSpends(l, f.redis, e.now, until);
  }

  /** A step admits locally at most what it takes from the replica's own bucket. */
  lemma LocalStepSpends(l: Limits, f: Fleet, e: FleetEvent, until: real)
    requires Proper(l) && l.burst <= Gain(l.rps, REAP_AGE) && FleetOk(l, f, e.now) && e.replica < |f.locals|
    ensures var (f', ok) := FleetStep(l, f, e);
      SumCapacity(l, f'.locals, Seconds(e.now), Seconds(until)) + (if ok && !Shared(e) then 1.0 else 0.0) <=
      SumCapacity(l, f.locals, Seconds(e.now), Seconds(until))
  {
    var i, now, end := e.replica, Seconds(e.now), Seconds(until);
    var b := f.locals[i];
    if e.LocalSweep? {
      ReapIsAlike(l, b, b, now);
      SumUpdate(l, f.locals, i, Reap(b, now), now, end);
    } else if e.outcome != Answered {
      CapacitySpent(l, b, now, end);
      SumUpdate(l, f.locals, i, Some(Allow(l, b, now).0), now, end);
    }
  }

  lemma {:induction false} SharedWithinCapacity(l: Limits, f: Fleet, events: seq<FleetEvent>, from: real, until: real)
    requires Proper(l) && FleetOk(l, f, from) && from <= until && Schedule(events, from, until)
    requires forall e :: e in events ==> e.replica < |f.locals|
    ensures FleetAdmitted(l, f, events, true) as real <= SharedCapacity(l, f.redis, from, until)
    decreases |events|
  {
    if events == [] {
      CapacityNonNegative(l, Visible(f.redis, from), Seconds(from), Seconds(until));
    } else {
      var e := events[0];
      VisibleShrinks(l, f.redis, from, e.now, until);
      FleetStepOk(l, f, e);
      SharedStepSpends(l, f, e, until);
      SharedWithinCapacity(l, FleetStep(l, f, e).0, events[1..], e.now, until);
    }
  }

  lemma {:induction false} LocalsWithinCapacity(l: Limits, f: Fleet, events: seq<FleetEvent>, from: real, until: real)
    requires Proper(l) && l.burst <= Gain(l.rps, REAP_AGE) && FleetOk(l, f, from)
    requires from <= until && Schedule(events, from, until) && forall e :: e in events ==> e.replica < |f.locals|
    ensures FleetAdmitted(l, f, events, false) as real <= SumCapacity(l, f.locals, Seconds(from), Seconds(until))
    decreases |events|
  {
    if events == [] {
      SumBound(l, f.locals, Seconds(from), Seconds(until));
    } else {
      var e := events[0];
      SumShrinks(l, f.locals, Seconds(from), Seconds(e.now), Seconds(until));
      FleetStepOk(l, f, e);
      LocalStepSpends(l, f, e, until);
      LocalsWithinCapacity(l, FleetStep(l, f, e).0, events[1..], e.now, until);
    }
  }

  /** The shared bucket admits at most burst + rps * T in a window of length T, whatever the replicas do. */
  lemma SharedWindowBound(l: Limits, f: Fleet, events: seq<FleetEvent>, from: real, until: real)
    requires Proper(l) && FleetOk(l, f, from) && from <= until && Schedule(events, from, until)
    requires forall e :: e in events ==> e.replica < |f.locals|
    ensures FleetAdmitted(l, f, events, true) as real <= Allowance(l, Seconds(from), Seconds(until))
  {
    SharedWithinCapacity(l, f, events, from, until);
    CapacityBound(l, Visible(f.redis, from), Seconds(from), Seconds(from), Seconds(until));
  }

  /** The fallback buckets of N replicas admit at most N * (burst + rps * T) between them. */
  lemma LocalsWindowBound(l: Limits, f: Fleet, events: seq<FleetEvent>, from: real, until: real)
    requires Proper(l) && l.burst <= Gain(l.rps, REAP_AGE) && FleetOk(l, f, from)
    requires from <= until && Schedule(events, from, until) && forall e :: e in events ==> e.replica < |f.locals|
    ensures FleetAdmitted(l, f, events, false) as real <=
      Times(|f.locals|, Allowance(l, Seconds(from), Seconds(until)))
  {
    LocalsWithinCapacity(l, f, events, from, until);
    SumBound(l, f.locals, Seconds(from), Seconds(until));
  }

  /**
    With N replicas and any pattern of Redis errors, lost replies included, the requests admitted in a window of
    length T number at most (N + 1) * (burst + rps * T).
   */
  lemma FleetWindowBound(l: Limits, f: Fleet, events: seq<FleetEvent>, from: real, until: real)
    requires Proper(l) && l.burst <= Gain(l.rps, REAP_AGE) && FleetOk(l, f, from)
    requires from <= until && Schedule(events, from, until) && forall e :: e in events ==> e.replica < |f.locals|
    ensures (FleetAdmitted(l, f, events, true) + FleetAdmitted(l, f, events, false)) as real <=
      Times(|f.locals| + 1, Allowance(l, Seconds(from), Seconds(until)))
  {
    SharedWindowBound(l, f, events, from, until);
    LocalsWindowBound(l, f, events, from, until);
    OneMore(|f.locals|, Allowance(l, Seconds(from), Seconds(until)));
  }

  // ---- ... and why the burst must refill within the reap age ----

  /** A fleet whose fallback buckets are all alike. */
  function Uniform(n: nat, b: Option<Bucket>): Fleet {
    Fleet(None, seq(n, _ => b))
  }

  /** Fallback buckets of which the first `i` have moved on from `b` to `c`. */
  function Halfway(n: nat, b: Option<Bucket>, c: Option<Bucket>, i: nat): Fleet
    requires i <= n
  {
    Fleet(None, seq(n, j => if j < i then c else b))
  }

  /** One event of a single bucket, happening at replica `i` while Redis is out of reach. */
  function At(e: Event, i: nat): FleetEvent {
    if e.Request? then Call(i, e.now * 1000.0, Unreachable) else LocalSweep(i, e.now * 1000.0)
  }

  function Everywhere(e: Event, i: nat, n: nat): seq<FleetEvent>
    requires i <= n
    decreases n - i
  {
    if i == n then [] else [At(e, i)] + Everywhere(e, i + 1, n)
  }

  function Spread(events: seq<Event>, n: nat): seq<FleetEvent> {
    if events == [] then [] else Everywhere(events[0], 0, n) + Spread(events[1..], n)
  }

  lemma {:induction false} EverywhereOk(e: Event, i: nat, n: nat)
    requires i <= n
    ensures forall x :: x in Everywhere(e, i, n) ==> x.replica < n && x.now == e.now * 1000.0
    decreases n - i
  {
    if i < n {
      EverywhereOk(e, i + 1, n);
    }
  }

  lemma {:induction false} SpreadOk(events: seq<Event>, n: nat)
    ensures forall x :: x in Spread(events, n) ==> x.replica < n
  {
    if events != [] {
      EverywhereOk(events[0], 0, n);
      SpreadOk(events[1..], n);
    }
  }

  lemma {:induction false} ScheduleConcat(a: seq<FleetEvent>, b: seq<FleetEvent>, from: real, mid: real, until: real)
    requires from <= mid <= until && (forall x :: x in a ==> x.now == mid) && Schedule(b, mid, until)
    ensures Schedule(a + b, from, until)
    decreases |a|
  {
    if a == [] {
      assert a + b == b;
    } else {
      assert (a + b)[1..] == a[1..] + b;
      ScheduleConcat(a[1..], b, mid, mid, until);
    }
  }

  lemma {:induction false} SpreadSchedule(events: seq<Event>, n: nat, from: real, until: real)
    requires Ordered(events, from) && forall e :: e in events ==> e.now <= until
    ensures Schedule(Spread(events, n), from * 1000.0, until * 1000.0)
    decreases |events|
  {
    if events != [] {
      SpreadSchedule(events[1..], n, events[0].now, until);
      EverywhereOk(events[0], 0, n);
      ScheduleConcat(Everywhere(events[0], 0, n), Spread(events[1..], n),
                     from * 1000.0, events[0].now * 1000.0, until * 1000.0);
    }
  }

  lemma HalfwayStep(l: Limits, n: nat, b: Option<Bucket>, e: Event, i: nat)
    requires i < n
    ensures var (c, d) := Step(l, b, e, true);
      FleetStep(l, Halfway(n, b, c, i), At(e, i)) == (Halfway(n, b, c, i + 1), d == [true])
  {
    var (c, d) := Step(l, b, e, true);
    assert Seconds(e.now * 1000.0) == e.now;
    assert Halfway(n, b, c, i).locals[i := c] == Halfway(n, b, c, i + 1).locals;
  }

  lemma {:induction false} EverywhereAdmits(
      l: Limits, n: nat, b: Option<Bucket>, e: Event, i: nat, rest: seq<FleetEvent>)
    requires i <= n && forall x :: x in Everywhere(e, i, n) + rest ==> x.replica < n
    ensures var (c, d) := Step(l, b, e, true);
      FleetAdmitted(l, Halfway(n, b, c, i), Everywhere(e, i, n) + rest, false) ==
      (n - i) * Admitted(d) + FleetAdmitted(l, Halfway(n, b, c, n), rest, false)
    decreases n - i
  {
    var all := Everywhere(e, i, n) + rest;
    if i == n {
      assert all == rest;
    } else {
      HalfwayStep(l, n, b, e, i);
      assert all[0] == At(e, i) && all[1..] == Everywhere(e, i + 1, n) + rest;
      EverywhereAdmits(l, n, b, e, i + 1, rest);
      StepAdmits(l, b, e);
    }
  }

  lemma StepAdmits(l: Limits, b: Option<Bucket>, e: Event)
    ensures var d := Step(l, b, e, true).1; Admitted(d) == if d == [true] then 1 else 0
  {
  }

  lemma Distribute(n: nat, a: nat, b: nat)
    ensures n * (a + b) == n * a + n * b
  {
  }

  lemma {:induction false} SpreadAdmits(l: Limits, n: nat, b: Option<Bucket>, events: seq<Event>)
    requires forall x :: x in Spread(events, n) ==> x.replica < n
    ensures FleetAdmitted(l, Uniform(n, b), Spread(events, n), false) == n * Admitted(Decisions(l, b, events, true))
    decreases |events|
  {
    if events != [] {
      var e := events[0];
      var (c, d) := Step(l, b, e, true);
      assert Uniform(n, b) == Halfway(n, b, c, 0) && Uniform(n, c) == Halfway(n, b, c, n);
      EverywhereAdmits(l, n, b, e, 0, Spread(events[1..], n));
      SpreadAdmits(l, n, c, events[1..]);
      AdmittedConcat(d, Decisions(l, c, events[1..], true));
      Distribute(n, Admitted(d), Admitted(Decisions(l, c, events[1..], true)));
    }
  }

  /** A schedule for `n` replicas from time zero. */
  ghost predicate ScheduleFor(events: seq<FleetEvent>, n: nat, until: real) {
    Schedule(events, 0.0, until) && 0.0 <= until && forall e :: e in events ==> e.replica < n
  }

  ghost predicate LocalsBounded(l: Limits, n: nat) {
    forall events, until :: ScheduleFor(events, n, until) ==>
      FleetAdmitted(l, Uniform(n, None), events, false) as real <= Times(n, Allowance(l, 0.0, Seconds(until)))
  }

  /**
    For a fleet of any size, the bound on what the fallback buckets admit holds of every schedule if and only if a burst
    refills within the reap age.
   */
  lemma LocalsWindowBoundIff(l: Limits, n: nat)
    requires Proper(l) && 0 < n
    ensures l.burst <= Gain(l.rps, REAP_AGE) <==> LocalsBounded(l, n)
  {
    if l.burst <= Gain(l.rps, REAP_AGE) {
      forall events, until | ScheduleFor(events, n, until)
        ensures FleetAdmitted(l, Uniform(n, None), events, false) as real <= Times(n, Allowance(l, 0.0, Seconds(until)))
      {
        LocalsWindowBound(l, Uniform(n, None), events, 0.0, until);
      }
    } else {
      var events, until := ReapingOverflows(l);
      SpreadOk(events, n);
      SpreadSchedule(events, n, 0.0, until);
      SpreadAdmits(l, n, None, events);
      assert Seconds(until * 1000.0) == until;
      TimesExceeds(n, Admitted(Decisions(l, None, events, true)), Allowance(l, 0.0, until));
      assert ScheduleFor(Spread(events, n), n, until * 1000.0);
    }
  }
}
