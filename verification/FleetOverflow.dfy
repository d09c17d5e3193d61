/**
  Why the fleet's bound needs a burst that refills within the reap age: cycle after cycle of draining and sweeping makes
  what the fallback buckets admit grow past any bound, while the shared bucket hands out all but a fraction of its own.
 */
module FleetOverflow {
  import opened Wrappers
  import opened RealMath
  import opened TokenBucket
  import opened RateLimiter

  // ---- One bucket, drained again and again ----

  lemma {:induction false} FinalConcat(l: Limits, b: Option<Bucket>, a: seq<Event>, c: seq<Event>, reaping: bool)
    ensures Final(l, b, a + c, reaping) == Final(l, Final(l, b, a, reaping), c, reaping)
    decreases |a|
  {
    if a == [] {
      assert a + c == c;
    } else {
      assert (a + c)[1..] == a[1..] + c;
      FinalConcat(l, Step(l, b, a[0], reaping).0, a[1..], c, reaping);
    }
  }

  /** What a sweep gives away when the bucket has been idle just past the reap age. */
  function Excess(l: Limits): real {
    l.burst - (l.burst + Gain(l.rps, REAP_AGE)) / 2.0
  }

  /** After `k` cycles the bucket is empty, and has admitted that much more than its allowance. */
  ghost predicate Cycled(l: Limits, events: seq<Event>, until: real, k: nat) {
    && Ordered(events, 0.0) && 0.0 <= until && (forall e :: e in events ==> e.now <= until)
    && Final(l, None, events, true) == Some(Bucket(0.0, until))
    && Admitted(Decisions(l, None, events, true)) as real == Allowance(l, 0.0, until) + Times(k, Excess(l))
    && Times(k, REAP_AGE) <= until
  }

  lemma FirstDrain(l: Limits) returns (events: seq<Event>, until: real)
    requires Proper(l)
    ensures Cycled(l, events, until, 0)
  {
    events, until := DrainFresh(l, 0.0);
    assert Times(0, Excess(l)) == 0.0 && Times(0, REAP_AGE) == 0.0;
  }

  /** The sweep and the draining that follows it. */
  lemma SweepAndDrain(l: Limits, t: real) returns (events: seq<Event>, until: real)
    requires Proper(l) && l.burst > Gain(l.rps, REAP_AGE)
    ensures Ordered(events, t) && t + REAP_AGE <= until && forall e :: e in events ==> e.now <= until
    ensures Final(l, Some(Bucket(0.0, t)), events, true) == Some(Bucket(0.0, until))
    ensures Admitted(Decisions(l, Some(Bucket(0.0, t)), events, true)) as real == Gain(l.rps, until - t) + Excess(l)
  {
    var now, tokens := HalfwayIdle(l, t);
    var drain;
    drain, until := DrainFresh(l, now);
    events := [Sweep(now)] + drain;
    OrderedCons(Sweep(now), drain, t);
    DecisionsCons(l, Some(Bucket(0.0, t)), Sweep(now), drain, true);
    assert [] + Decisions(l, None, drain, true) == Decisions(l, None, drain, true);
    GainAdds(l.rps, now - t, until - now);
    assert now - t + (until - now) == until - t;
  }

  lemma OneMoreCycle(l: Limits, before: seq<Event>, t: real, k: nat) returns (events: seq<Event>, until: real)
    requires Proper(l) && l.burst > Gain(l.rps, REAP_AGE) && Cycled(l, before, t, k)
    ensures Cycled(l, events, until, k + 1)
  {
    var more;
    more, until := SweepAndDrain(l, t);
    events := before + more;
    OrderedConcat(before, more, 0.0, t);
    DecisionsConcat(l, None, before, more, true);
    FinalConcat(l, None, before, more, true);
    AdmittedConcat(Decisions(l, None, before, true), Decisions(l, Some(Bucket(0.0, t)), more, true));
    OneMore(k, Excess(l));
    OneMore(k, REAP_AGE);
    GainAdds(l.rps, t - 0.0, until - t);
    assert t - 0.0 + (until - t) == until - 0.0;
  }

  lemma {:induction false} ManyCycles(l: Limits, k: nat) returns (events: seq<Event>, until: real)
    requires Proper(l) && l.burst > Gain(l.rps, REAP_AGE)
    ensures Cycled(l, events, until, k)
  {
    if k == 0 {
      events, until := FirstDrain(l);
    } else {
      events, until := ManyCycles(l, k - 1);
      events, until := OneMoreCycle(l, events, until, k - 1);
    }
  }

  // ---- The shared bucket, kept empty ----

  /** `m` requests, each made when the empty bucket has just gained one token. */
  lemma {:induction false} Trickle(l: Limits, t: real, m: nat) returns (events: seq<Event>, end: real)
    requires Proper(l)
    ensures Drained(l, Some(Bucket(0.0, t)), 0.0, t, events, end) && Gain(l.rps, end - t) == m as real
    decreases m
  {
    if m == 0 {
      events, end := [], t;
      EmptyIsDrained(l, t);
      assert Gain(l.rps, t - t) == 0.0;
    } else {
      var when := WaitForOne(l, 0.0, t);
      var rest;
      rest, end := Trickle(l, when, m - 1);
      events := [Request(when)] + rest;
      DrainedCons(l, Some(Bucket(0.0, t)), 0.0, t, when, rest, end);
      GainAdds(l.rps, when - t, end - when);
      assert when - t + (end - when) == end - t;
    }
  }

  lemma DrainedConcat(l: Limits, a: seq<Event>, mid: real, b: seq<Event>, end: real)
    requires Drained(l, None, l.burst, 0.0, a, mid) && Drained(l, Some(Bucket(0.0, mid)), 0.0, mid, b, end)
    ensures Ordered(a + b, 0.0) && forall e :: e in a + b ==> e.now <= end
    ensures Admitted(Decisions(l, None, a + b, false)) as real == l.burst + Gain(l.rps, end - 0.0)
  {
    OrderedConcat(a, b, 0.0, mid);
    DecisionsConcat(l, None, a, b, false);
    AdmittedConcat(Decisions(l, None, a, false), Decisions(l, Some(Bucket(0.0, mid)), b, false));
    GainAdds(l.rps, mid - 0.0, end - mid);
    assert mid - 0.0 + (end - mid) == end - 0.0;
  }

  /** The requests of a window that take all but a fraction of a token. */
  lemma NearlyExhausts(l: Limits, first: seq<Event>, mid: real, until: real) returns (events: seq<Event>)
    requires Proper(l) && Drained(l, None, l.burst, 0.0, first, mid) && mid <= until
    ensures Ordered(events, 0.0) && forall e :: e in events ==> e.now <= until
    ensures Admitted(Decisions(l, None, events, false)) as real > Allowance(l, 0.0, until) - 1.0
  {
    var left := Gain(l.rps, until - mid);
    GainNonNegative(l.rps, until - mid);
    var m: nat := left.Floor;
    var more, end := Trickle(l, mid, m);
    events := first + more;
    DrainedConcat(l, first, mid, more, end);
    NoLaterThan(l, end - mid, until - mid);
    GainAdds(l.rps, end - 0.0, until - end);
    GainAdds(l.rps, end - mid, until - end);
    assert end - 0.0 + (until - end) == until - 0.0 && end - mid + (until - end) == until - mid;
  }

  lemma NoLaterThan(l: Limits, a: real, b: real)
    requires l.rps > 0.0 && Gain(l.rps, a) <= Gain(l.rps, b)
    ensures a <= b
  {
    if a > b {
      GainStrict(l.rps, b, a);
    }
  }

  /** The requests as calls that Redis answers. */
  function AsCalls(events: seq<Event>): seq<FleetEvent> {
    if events == [] then []
    else if events[0].Sweep? then AsCalls(events[1..])
    else [Call(0, events[0].now * 1000.0, Answered)] + AsCalls(events[1..])
  }

  ghost predicate AllShared(events: seq<FleetEvent>) {
    forall e :: e in events ==> Shared(e) && e.replica == 0
  }

  /** Nothing reaches Redis. */
  ghost predicate AllLocal(events: seq<FleetEvent>, n: nat) {
    forall e :: e in events ==> (e.Call? ==> e.outcome == Unreachable) && e.replica < n
  }

  lemma {:induction false} CallsAreShared(events: seq<Event>)
    ensures AllShared(AsCalls(events))
  {
    if events != [] {
      CallsAreShared(events[1..]);
    }
  }

  lemma {:induction false} CallsSchedule(events: seq<Event>, from: real, until: real)
    requires Ordered(events, from) && forall e :: e in events ==> e.now <= until
    ensures Schedule(AsCalls(events), from * 1000.0, until * 1000.0)
    decreases |events|
  {
    if events != [] {
      CallsSchedule(events[1..], events[0].now, until);
      assert events[0] in events;
      if events[0].Sweep? {
        ScheduleEarlier(AsCalls(events), from * 1000.0, events[0].now * 1000.0, until * 1000.0);
      }
    }
  }

  lemma ScheduleEarlier(events: seq<FleetEvent>, from: real, later: real, until: real)
    requires from <= later && Schedule(events, later, until)
    ensures Schedule(events, from, until)
  {
  }

  lemma {:induction false} CallsAdmit(l: Limits, f: Fleet, events: seq<Event>)
    requires 0 < |f.locals| && forall e :: e in AsCalls(events) ==> e.replica < |f.locals|
    ensures FleetAdmitted(l, f, AsCalls(events), true) == Admitted(RedisDecisions(l, f.redis, RequestTimes(events)))
    decreases |events|
  {
    if events != [] {
      if events[0].Sweep? {
        CallsAdmit(l, f, events[1..]);
      } else {
        var call := Call(0, events[0].now * 1000.0, Answered);
        var calls := AsCalls(events);
        assert calls[0] == call && calls[1..] == AsCalls(events[1..]);
        var (s', ok) := Script(l, f.redis, call.now);
        assert FleetStep(l, f, call) == (f.(redis := Some(s')), ok);
        CallsAdmit(l, f.(redis := Some(s')), events[1..]);
        assert RequestTimes(events)[1..] == RequestTimes(events[1..]);
        AdmittedConcat([ok], RedisDecisions(l, Some(s'), RequestTimes(events[1..])));
        assert Admitted([ok]) == if ok then 1 else 0;
      }
    }
  }

  // ---- Both at once ----

  /** Two schedules run side by side. */
  function Merge(a: seq<FleetEvent>, b: seq<FleetEvent>): seq<FleetEvent>
    decreases |a| + |b|
  {
    if a == [] then b
    else if b == [] then a
    else if a[0].now <= b[0].now then [a[0]] + Merge(a[1..], b)
    else [b[0]] + Merge(a, b[1..])
  }

  lemma {:induction false} MergeMembers(a: seq<FleetEvent>, b: seq<FleetEvent>)
    ensures forall e :: e in Merge(a, b) ==> e in a || e in b
    decreases |a| + |b|
  {
    if a != [] && b != [] {
      MergeMembers(a[1..], b);
      MergeMembers(a, b[1..]);
    }
  }

  lemma {:induction false} MergeSchedule(a: seq<FleetEvent>, b: seq<FleetEvent>, from: real, until: real)
    requires Schedule(a, from, until) && Schedule(b, from, until)
    ensures Schedule(Merge(a, b), from, until)
    decreases |a| + |b|
  {
    if a != [] && b != [] {
      if a[0].now <= b[0].now {
        MergeSchedule(a[1..], b, a[0].now, until);
        assert Merge(a, b)[1..] == Merge(a[1..], b);
      } else {
        MergeSchedule(a, b[1..], b[0].now, until);
        assert Merge(a, b)[1..] == Merge(a, b[1..]);
      }
    }
  }

  lemma {:induction false} SharedAlone(l: Limits, f: Fleet, g: Fleet, a: seq<FleetEvent>)
    requires AllShared(a) && f.redis == g.redis && 0 < |f.locals| == |g.locals|
    ensures FleetAdmitted(l, f, a, true) == FleetAdmitted(l, g, a, true) && FleetAdmitted(l, f, a, false) == 0
    decreases |a|
  {
    if a != [] {
      assert a[0] in a;
      SharedAlone(l, FleetStep(l, f, a[0]).0, FleetStep(l, g, a[0]).0, a[1..]);
    }
  }

  lemma {:induction false} LocalsAlone(l: Limits, f: Fleet, g: Fleet, b: seq<FleetEvent>)
    requires AllLocal(b, |f.locals|) && f.locals == g.locals
    ensures FleetAdmitted(l, f, b, false) == FleetAdmitted(l, g, b, false) && FleetAdmitted(l, f, b, true) == 0
    decreases |b|
  {
    if b != [] {
      assert b[0] in b;
      LocalsAlone(l, FleetStep(l, f, b[0]).0, FleetStep(l, g, b[0]).0, b[1..]);
    }
  }

  /** Shared and local buckets do not get in each other's way. */
  ghost predicate Apart(l: Limits, f: Fleet, a: seq<FleetEvent>, b: seq<FleetEvent>)
    requires AllShared(a) && AllLocal(b, |f.locals|) && 0 < |f.locals|
  {
    MergeMembers(a, b);
    && FleetAdmitted(l, f, Merge(a, b), true) == FleetAdmitted(l, f, a, true)
    && FleetAdmitted(l, f, Merge(a, b), false) == FleetAdmitted(l, f, b, false)
  }

  lemma SharedFirst(l: Limits, f: Fleet, a: seq<FleetEvent>, b: seq<FleetEvent>)
    requires AllShared(a) && AllLocal(b, |f.locals|) && 0 < |f.locals|
    requires a != [] && b != [] && a[0].now <= b[0].now
    requires Apart(l, FleetStep(l, f, a[0]).0, a[1..], b)
    ensures Apart(l, f, a, b)
  {
    assert a[0] in a;
    var f' := FleetStep(l, f, a[0]).0;
    MergeMembers(a, b);
    MergeMembers(a[1..], b);
    assert Merge(a, b)[0] == a[0] && Merge(a, b)[1..] == Merge(a[1..], b);
    LocalsAlone(l, f, f', b);
  }

  lemma LocalFirst(l: Limits, f: Fleet, a: seq<FleetEvent>, b: seq<FleetEvent>)
    requires AllShared(a) && AllLocal(b, |f.locals|) && 0 < |f.locals|
    requires a != [] && b != [] && a[0].now > b[0].now
    requires Apart(l, FleetStep(l, f, b[0]).0, a, b[1..])
    ensures Apart(l, f, a, b)
  {
    assert b[0] in b;
    var f' := FleetStep(l, f, b[0]).0;
    MergeMembers(a, b);
    MergeMembers(a, b[1..]);
    assert Merge(a, b)[0] == b[0] && Merge(a, b)[1..] == Merge(a, b[1..]);
    SharedAlone(l, f, f', a);
  }

  lemma {:induction false} MergeAdmits(l: Limits, f: Fleet, a: seq<FleetEvent>, b: seq<FleetEvent>)
    requires AllShared(a) && AllLocal(b, |f.locals|) && 0 < |f.locals|
    ensures Apart(l, f, a, b)
    decreases |a| + |b|
  {
    MergeMembers(a, b);
    if a == [] {
      LocalsAlone(l, f, f, b);
    } else if b == [] {
      SharedAlone(l, f, f, a);
    } else if a[0].now <= b[0].now {
      assert a[0] in a;
      MergeAdmits(l, FleetStep(l, f, a[0]).0, a[1..], b);
      SharedFirst(l, f, a, b);
    } else {
      assert b[0] in b;
      MergeAdmits(l, FleetStep(l, f, b[0]).0, a, b[1..]);
      LocalFirst(l, f, a, b);
    }
  }

  // ---- The fleet's bound ----

  lemma {:induction false} EverywhereIsLocal(e: Event, i: nat, n: nat)
    requires i <= n
    ensures AllLocal(Everywhere(e, i, n), n)
    decreases n - i
  {
    if i < n {
      EverywhereIsLocal(e, i + 1, n);
    }
  }

  lemma {:induction false} SpreadIsLocal(events: seq<Event>, n: nat)
    ensures AllLocal(Spread(events, n), n)
  {
    if events != [] {
      EverywhereIsLocal(events[0], 0, n);
      SpreadIsLocal(events[1..], n);
    }
  }

  /** Everything admitted, by the shared bucket and by the replicas' own. */
  function AdmittedInAll(l: Limits, f: Fleet, events: seq<FleetEvent>): nat
    requires forall e :: e in events ==> e.replica < |f.locals|
  {
    FleetAdmitted(l, f, events, true) + FleetAdmitted(l, f, events, false)
  }

  /** Local cycles on every replica, and the shared bucket drained beside them. */
  lemma SideBySide(l: Limits, n: nat, cycles: seq<Event>, drains: seq<Event>, until: real)
    returns (all: seq<FleetEvent>)
    requires Proper(l) && 0 < n && 0.0 <= until
    requires Ordered(cycles, 0.0) && Ordered(drains, 0.0)
    requires (forall e :: e in cycles ==> e.now <= until) && forall e :: e in drains ==> e.now <= until
    ensures ScheduleFor(all, n, until * 1000.0)
    ensures AdmittedInAll(l, Uniform(n, None), all) ==
      Admitted(Decisions(l, None, drains, false)) + n * Admitted(Decisions(l, None, cycles, true))
  {
    var f, a, b := Uniform(n, None), AsCalls(drains), Spread(cycles, n);
    CallsAreShared(drains);
    SpreadIsLocal(cycles, n);
    CallsSchedule(drains, 0.0, until);
    SpreadSchedule(cycles, n, 0.0, until);
    MergeSchedule(a, b, 0.0, until * 1000.0);
    MergeMembers(a, b);
    MergeAdmits(l, f, a, b);
    CallsAdmit(l, f, drains);
    ExpiryInvisible(l, None, None, drains, 0.0);
    SpreadAdmits(l, n, None, cycles);
    all := Merge(a, b);
  }

  /** Enough cycles to pass a given time and to give away more than one token each way. */
  lemma EnoughCycles(l: Limits, mid: real) returns (k: nat)
    requires Proper(l) && l.burst > Gain(l.rps, REAP_AGE)
    ensures Times(k, Excess(l)) > 1.0 && Times(k, REAP_AGE) > mid
  {
    var i := TimesUnbounded(Excess(l), 1.0);
    var j := TimesUnbounded(REAP_AGE, mid);
    k := if i <= j then j else i;
    TimesMonotone(i, k, Excess(l));
    TimesMonotone(j, k, REAP_AGE);
  }

  lemma FleetOverflows(l: Limits, n: nat) returns (all: seq<FleetEvent>, until: real)
    requires Proper(l) && 0 < n && l.burst > Gain(l.rps, REAP_AGE)
    ensures ScheduleFor(all, n, until * 1000.0) && 0.0 <= until
    ensures AdmittedInAll(l, Uniform(n, None), all) as real > Times(n + 1, Allowance(l, 0.0, until))
  {
    var first, mid := DrainFresh(l, 0.0);
    var k := EnoughCycles(l, mid);
    var cycles;
    cycles, until := ManyCycles(l, k);
    var drains := NearlyExhausts(l, first, mid, until);
    all := SideBySide(l, n, cycles, drains, until);
    Adds(n, Admitted(Decisions(l, None, cycles, true)), Admitted(Decisions(l, None, drains, false)),
         Allowance(l, 0.0, until), Times(k, Excess(l)));
  }

  lemma Adds(n: nat, local: nat, shared: nat, allowance: real, excess: real)
    requires 0 < n && local as real == allowance + excess && shared as real > allowance - 1.0 && excess > 1.0
    ensures (shared + n * local) as real > Times(n + 1, allowance)
  {
    TimesSplits(n, local, allowance, excess);
    TimesAtLeast(n, excess);
    OneMore(n, allowance);
  }

  ghost predicate FleetBounded(l: Limits, n: nat) {
    forall events, until :: ScheduleFor(events, n, until) ==>
      AdmittedInAll(l, Uniform(n, None), events) as real <= Times(n + 1, Allowance(l, 0.0, Seconds(until)))
  }

  /**
    For a fleet of any size N, whatever the pattern of Redis errors: at most (N + 1) * (burst + rps * T) requests are
    admitted on every schedule of length T if and only if a burst refills within the reap age.
   */
  lemma FleetWindowBoundIff(l: Limits, n: nat)
    requires Proper(l) && 0 < n
    ensures l.burst <= Gain(l.rps, REAP_AGE) <==> FleetBounded(l, n)
  {
    if l.burst <= Gain(l.rps, REAP_AGE) {
      forall events, until | ScheduleFor(events, n, until)
        ensures AdmittedInAll(l, Uniform(n, None), events) as real <= Times(n + 1, Allowance(l, 0.0, Seconds(until)))
      {
        FleetWindowBound(l, Uniform(n, None), events, 0.0, until);
      }
    } else {
      var all, until := FleetOverflows(l, n);
      assert Seconds(until * 1000.0) == until;
      assert ScheduleFor(all, n, until * 1000.0);
    }
  }
}
