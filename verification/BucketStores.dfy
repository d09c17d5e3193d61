/** The limiter's stores as the objects whose maps every request updates, one entry per client key. */
module BucketStores {
  import opened Wrappers
  import opened TokenBucket
  import opened RateLimiter
  import opened RealMath

  function Lookup<V>(m: map<string, V>, key: string): Option<V> {
    if key in m then Some(m[key]) else None
  }

  class LocalBucketStore {
    const limits: Limits
    var buckets: map<string, Bucket>

    constructor (limits: Limits)
      ensures this.limits == limits && buckets == map[]
    {
      this.limits := limits;
      buckets := map[];
    }

    /** Decides for one key as the bucket function does, and touches no other key. */
    method Allow(key: string, now: real) returns (ok: bool)
      modifies this
      ensures ok == TokenBucket.Allow(limits, Lookup(old(buckets), key), now).1
      ensures buckets == old(buckets)[key := TokenBucket.Allow(limits, Lookup(old(buckets), key), now).0]
    {
      if key !in buckets {
        buckets := buckets[key := Bucket(limits.burst - 1.0, now)];
        return true;
      }
      var b := buckets[key];
      var refilled := b.tokens + Gain(limits.rps, now - b.last);
      var tokens := if limits.burst <= refilled then limits.burst else refilled;
      buckets := buckets[key := Bucket(tokens, now)];
      if tokens < 1.0 {
        return false;
      }
      buckets := buckets[key := Bucket(tokens - 1.0, now)];
      return true;
    }

    /** One sweep of the reaper drops exactly the buckets idle past the cutoff. */
    method Sweep(now: real)
      modifies this
      ensures forall key :: Lookup(buckets, key) == Reap(Lookup(old(buckets), key), now)
    {
      var cutoff := now - REAP_AGE;
      var left := buckets.Keys;
      while left != {}
        invariant left <= old(buckets).Keys
        invariant forall key :: key in left ==> Lookup(buckets, key) == Lookup(old(buckets), key)
        invariant forall key :: key !in left ==> Lookup(buckets, key) == Reap(Lookup(old(buckets), key), now)
        decreases |left|
      {
        var k :| k in left;
        assert Lookup(buckets, k) == Some(old(buckets)[k]);
        if buckets[k].last < cutoff {
          buckets := buckets - {k};
        }
        left := left - {k};
      }
    }
  }

  class RedisBucketStore {
    const limits: Limits
    var redis: map<string, Stored>
    const fallback: LocalBucketStore

    constructor (limits: Limits)
      ensures this.limits == limits && fallback.limits == limits
      ensures redis == map[] && fallback.buckets == map[]
      ensures fresh(fallback)
    {
      this.limits := limits;
      redis := map[];
      fallback := new LocalBucketStore(limits);
    }

    /** The decision and both stores follow the fleet's step for this replica; other keys are untouched. */
    method Allow(key: string, now: real, outcome: Outcome) returns (ok: bool)
      requires fallback.limits == limits
      modifies this`redis, fallback
      ensures var f := Fleet(Lookup(old(redis), key), [Lookup(old(fallback.buckets), key)]);
        FleetStep(limits, f, Call(0, now, outcome)) ==
          (Fleet(Lookup(redis, key), [Lookup(fallback.buckets, key)]), ok)
      ensures forall k :: k != key ==> Lookup(redis, k) == Lookup(old(redis), k)
      ensures forall k :: k != key ==> Lookup(fallback.buckets, k) == Lookup(old(fallback.buckets), k)
    {
      if outcome != Unreachable {
        var (s', allowed) := Script(limits, Lookup(redis, key), now);
        redis := redis[key := s'];
        if outcome == Answered {
          return allowed;
        }
      }
      ok := fallback.Allow(key, Seconds(now));
      ghost var b, b' := Lookup(old(fallback.buckets), key), Lookup(fallback.buckets, key);
      assert [b][0 := b'] == [b'];
    }
  }
}
