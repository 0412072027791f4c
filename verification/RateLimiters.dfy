/** Both limiters as objects over their bucket maps. */
module RateLimiters {
  import opened Basics
  import opened OrderedMap
  import opened RateLimiterSpec

  class FixedWindowRateLimiter {
    const maxPerWindow: int
    const windowMs: int
    const maxBuckets: Option<nat>
    var buckets: OMap<string, Window>

    constructor (maxPerWindow: int, windowMs: int, maxBuckets: Option<nat>)
      ensures this.maxPerWindow == maxPerWindow && this.windowMs == windowMs && this.maxBuckets == maxBuckets
      ensures buckets == Table(FixedPolicy(maxPerWindow, windowMs), maxBuckets, [])
    {
      this.maxPerWindow, this.windowMs, this.maxBuckets := maxPerWindow, windowMs, maxBuckets;
      buckets := Empty();
    }

    method EnforceMaxBuckets()
      modifies this`buckets
      ensures buckets == Enforce(old(buckets), maxBuckets)
    {
      if maxBuckets.Some? {
        buckets := Evict(buckets, maxBuckets.value);
      }
    }

    method Allow(key: string, now: int) returns (allowed: bool)
      modifies this`buckets
      ensures (buckets, allowed) == RateLimiterSpec.Allow(FixedPolicy(maxPerWindow, windowMs), maxBuckets, old(buckets), key, now)
    {
      if key !in buckets.data {
        buckets := Touch(buckets, key, Window(1, now));
        EnforceMaxBuckets();
        return true;
      }
      var current := buckets.data[key];
      if now - current.windowStartMs >= windowMs {
        buckets := Touch(buckets, key, Window(1, now));
        return true;
      }
      if current.count >= maxPerWindow {
        buckets := Touch(buckets, key, current);
        return false;
      }
      buckets := Touch(buckets, key, current.(count := current.count + 1));
      return true;
    }

    method SweepStale(now: int)
      modifies this`buckets
      ensures buckets == Enforce(Swept(FixedPolicy(maxPerWindow, windowMs), old(buckets), now), maxBuckets)
    {
      buckets := Sweep(buckets, NotStale(FixedPolicy(maxPerWindow, windowMs), now));
      EnforceMaxBuckets();
    }
  }

  class TokenBucketRateLimiter {
    const capacity: int
    const refillWindowMs: int
    const maxBuckets: Option<nat>
    var buckets: OMap<string, Tokens>

    constructor (capacity: int, refillWindowMs: int, maxBuckets: Option<nat>)
      ensures this.capacity == capacity && this.refillWindowMs == refillWindowMs && this.maxBuckets == maxBuckets
      ensures buckets == Table(TokenPolicy(capacity, refillWindowMs), maxBuckets, [])
    {
      this.capacity, this.refillWindowMs, this.maxBuckets := capacity, refillWindowMs, maxBuckets;
      buckets := Empty();
    }

    method EnforceMaxBuckets()
      modifies this`buckets
      ensures buckets == Enforce(old(buckets), maxBuckets)
    {
      if maxBuckets.Some? {
        buckets := Evict(buckets, maxBuckets.value);
      }
    }

    method Allow(key: string, now: int) returns (allowed: bool)
      modifies this`buckets
      ensures (buckets, allowed) == RateLimiterSpec.Allow(TokenPolicy(capacity, refillWindowMs), maxBuckets, old(buckets), key, now)
    {
      if key !in buckets.data {
        buckets := Touch(buckets, key, Tokens((capacity - 1) * refillWindowMs, now));
        EnforceMaxBuckets();
        return true;
      }
      var existing := Refill(capacity, refillWindowMs, buckets.data[key], now);
      if existing.units < refillWindowMs {
        buckets := Touch(buckets, key, existing);
        return false;
      }
      buckets := Touch(buckets, key, existing.(units := existing.units - refillWindowMs));
      return true;
    }

    method SweepStale(now: int)
      modifies this`buckets
      ensures buckets == Enforce(Swept(TokenPolicy(capacity, refillWindowMs), old(buckets), now), maxBuckets)
    {
      buckets := Sweep(buckets, NotStale(TokenPolicy(capacity, refillWindowMs), now));
      EnforceMaxBuckets();
    }
  }
}
