/** The limiter objects: sharded maps updated in place, each AllowN and Reset one lock region.
    The caller passes the clock reading the original takes under the lock. */
module KeyedLimiters {
  import opened Common
  import opened Limiters
  import opened Hash
  import opened Sharding

  datatype Config = Config(rate: int, burst: int, window: int, shards: int)

  /** Shards of per-key state. */
  class BaseLimiter {
    const shards: array<Shard>

    ghost predicate Valid()
      reads shards
    {
      shards.Length > 0 && Homed(shards[..])
    }

    constructor (numShards: int)
      ensures Valid() && fresh(shards)
      ensures shards[..] == EmptyStore(numShards)
      ensures shards.Length == (if numShards <= 0 then 256 else numShards)
      ensures forall key :: Lookup(shards[..], key) == None
    {
      var n: nat := if numShards <= 0 then 256 else numShards;
      shards := new Shard[n](_ => map[]);
    }

    method GetShard(key: Key) returns (i: nat)
      requires shards.Length > 0
      ensures i < shards.Length && i == ShardIndex(key, shards.Length) == (Fnv1a(key) as nat) % shards.Length
    {
      var h := ComputeFnv1a(key);
      i := (h as nat) % shards.Length;
    }

    /** Reset: deletes the key from its shard. */
    method Reset(p: Policy, key: Key)
      requires Valid()
      modifies shards
      ensures Valid()
      ensures shards[..] == StoreAfter(p, old(shards[..]), Op.Reset(key))
      ensures Lookup(shards[..], key) == None
      ensures forall other :: other != key ==> Lookup(shards[..], other) == old(Lookup(shards[..], other))
    {
      ghost var before := shards[..];
      var i := GetShard(key);
      shards[i] := shards[i] - {key};
      assert shards[..] == StoreAfter(p, before, Op.Reset(key));
    }

    /** Stores a key's new state in the shard GetShard chose. */
    method SetState(i: nat, key: Key, st: KeyState)
      requires Valid() && i < shards.Length && i == ShardIndex(key, shards.Length)
      modifies shards
      ensures Valid()
      ensures shards[..] == old(shards[..])[i := Put(old(shards[i]), key, Some(st))]
    {
      shards[i] := shards[i][key := st];
    }
  }

  class TokenBucketLimiter {
    const base: BaseLimiter
    const rate: int
    const burst: int

    ghost predicate Valid()
      reads base.shards
    {
      rate > 0 && burst > 0 && base.Valid()
    }

    ghost function Policy(): Policy
      requires rate > 0 && burst > 0
    {
      RawPolicy.TokenBucket(rate, burst)
    }

    constructor (config: Config)
      requires config.rate > 0
      ensures Valid() && fresh(base) && fresh(base.shards) && base.shards[..] == EmptyStore(config.shards)
      ensures rate == config.rate && burst == if config.burst <= 0 then config.rate else config.burst
    {
      base := new BaseLimiter(config.shards);
      rate := config.rate;
      burst := if config.burst <= 0 then config.rate else config.burst;
    }

    /** The factory: an error for a rate that is not positive. */
    static method Create(config: Config) returns (l: Option<TokenBucketLimiter>)
      ensures l.None? <==> config.rate <= 0
      ensures l.Some? ==>
        && fresh(l.value) && fresh(l.value.base) && fresh(l.value.base.shards)
        && l.value.Valid() && l.value.base.shards[..] == EmptyStore(config.shards)
        && l.value.Policy()
           == RawPolicy.TokenBucket(config.rate, if config.burst <= 0 then config.rate else config.burst)
    {
      if config.rate <= 0 {
        return None;
      }
      var limiter := new TokenBucketLimiter(config);
      return Some(limiter);
    }

    method AllowN(key: Key, now: int, n: int) returns (v: Verdict)
      requires Valid()
      modifies base.shards
      ensures Valid()
      ensures Decided(v) == StoreReply(Policy(), old(base.shards[..]), Op.AllowN(key, now, n))
      ensures base.shards[..] == StoreAfter(Policy(), old(base.shards[..]), Op.AllowN(key, now, n))
    {
      var i := base.GetShard(key);
      ghost var before := Lookup(base.shards[..], key);
      var tokens, lastUpdate := burst * NANO, now;
      if key in base.shards[i] && base.shards[i][key].Tokens? {
        tokens, lastUpdate := base.shards[i][key].tokens, base.shards[i][key].lastUpdate;
      }
      tokens := tokens + (now - lastUpdate) * rate;
      if tokens > burst * NANO {
        tokens := burst * NANO;
      }
      var cost := n * NANO;
      if tokens >= cost {
        tokens := tokens - cost;
        v := Verdict(true, TruncDiv(tokens, NANO), 0, 0);
      } else {
        v := Verdict(false, TruncDiv(tokens, NANO), 0, TruncDiv(cost - tokens, rate));
      }
      assert Outcome(Tokens(tokens, now), v) == DecideToken(rate, burst, before, now, n);
      base.SetState(i, key, Tokens(tokens, now));
    }
  }

  class LeakyBucketLimiter {
    const base: BaseLimiter
    const rate: int
    const capacity: int

    ghost predicate Valid()
      reads base.shards
    {
      rate > 0 && capacity > 0 && base.Valid()
    }

    ghost function Policy(): Policy
      requires rate > 0 && capacity > 0
    {
      RawPolicy.LeakyBucket(rate, capacity)
    }

    constructor (config: Config)
      requires config.rate > 0
      ensures Valid() && fresh(base) && fresh(base.shards) && base.shards[..] == EmptyStore(config.shards)
      ensures rate == config.rate && capacity == if config.burst <= 0 then config.rate else config.burst
    {
      base := new BaseLimiter(config.shards);
      rate := config.rate;
      capacity := if config.burst <= 0 then config.rate else config.burst;
    }

    /** The factory: an error for a rate that is not positive. */
    static method Create(config: Config) returns (l: Option<LeakyBucketLimiter>)
      ensures l.None? <==> config.rate <= 0
      ensures l.Some? ==>
        && fresh(l.value) && fresh(l.value.base) && fresh(l.value.base.shards)
        && l.value.Valid() && l.value.base.shards[..] == EmptyStore(config.shards)
        && l.value.Policy()
           == RawPolicy.LeakyBucket(config.rate, if config.burst <= 0 then config.rate else config.burst)
    {
      if config.rate <= 0 {
        return None;
      }
      var limiter := new LeakyBucketLimiter(config);
      return Some(limiter);
    }

    method AllowN(key: Key, now: int, n: int) returns (v: Verdict)
      requires Valid()
      modifies base.shards
      ensures Valid()
      ensures Decided(v) == StoreReply(Policy(), old(base.shards[..]), Op.AllowN(key, now, n))
      ensures base.shards[..] == StoreAfter(Policy(), old(base.shards[..]), Op.AllowN(key, now, n))
    {
      var i := base.GetShard(key);
      ghost var before := Lookup(base.shards[..], key);
      var water, lastUpdate := 0, now;
      if key in base.shards[i] && base.shards[i][key].Water? {
        water, lastUpdate := base.shards[i][key].water, base.shards[i][key].lastUpdate;
      }
      water := water - (now - lastUpdate) * rate;
      if water < 0 {
        water := 0;
      }
      var cost := n * NANO;
      if water + cost <= capacity * NANO {
        water := water + cost;
        v := Verdict(true, TruncDiv(capacity * NANO - water, NANO), 0, 0);
      } else {
        var overflow := water + cost - capacity * NANO;
        v := Verdict(false, TruncDiv(capacity * NANO - water, NANO), 0, TruncDiv(overflow, rate));
      }
      assert Outcome(Water(water, now), v) == DecideWater(rate, capacity, before, now, n);
      base.SetState(i, key, Water(water, now));
    }
  }

  class SlidingWindowLimiter {
    const base: BaseLimiter
    const rate: int
    const window: int

    ghost predicate Valid()
      reads base.shards
    {
      rate > 0 && window > 0 && base.Valid()
    }

    ghost function Policy(): Policy
      requires rate > 0 && window > 0
    {
      RawPolicy.SlidingWindow(rate, window)
    }

    constructor (config: Config)
      requires config.rate > 0
      ensures Valid() && fresh(base) && fresh(base.shards) && base.shards[..] == EmptyStore(config.shards)
      ensures rate == config.rate && window == if config.window <= 0 then NANO else config.window
    {
      base := new BaseLimiter(config.shards);
      rate := config.rate;
      window := if config.window <= 0 then NANO else config.window;
    }

    /** The factory: an error for a rate that is not positive. */
    static method Create(config: Config) returns (l: Option<SlidingWindowLimiter>)
      ensures l.None? <==> config.rate <= 0
      ensures l.Some? ==>
        && fresh(l.value) && fresh(l.value.base) && fresh(l.value.base.shards)
        && l.value.Valid() && l.value.base.shards[..] == EmptyStore(config.shards)
        && l.value.Policy()
           == RawPolicy.SlidingWindow(config.rate, if config.window <= 0 then NANO else config.window)
    {
      if config.rate <= 0 {
        return None;
      }
      var limiter := new SlidingWindowLimiter(config);
      return Some(limiter);
    }

    method AllowN(key: Key, now: int, n: int) returns (v: Verdict)
      requires Valid()
      modifies base.shards
      ensures Valid()
      ensures Decided(v) == StoreReply(Policy(), old(base.shards[..]), Op.AllowN(key, now, n))
      ensures base.shards[..] == StoreAfter(Policy(), old(base.shards[..]), Op.AllowN(key, now, n))
    {
      var i := base.GetShard(key);
      ghost var before := Lookup(base.shards[..], key);
      var currentWindow := Truncate(now, window);
      var prevCount, currCount, windowStart := 0, 0, currentWindow;
      if key in base.shards[i] && base.shards[i][key].Sliding? {
        var s := base.shards[i][key];
        prevCount, currCount, windowStart := s.prevCount, s.currCount, s.windowStart;
      }
      if currentWindow > windowStart {
        if currentWindow - windowStart >= window {
          prevCount, currCount := 0, 0;
        } else {
          prevCount, currCount := currCount, 0;
        }
        windowStart := currentWindow;
      }
      var elapsed := now - currentWindow;
      var weightedCount := TruncDiv(prevCount * (window - elapsed) + currCount * window, window);
      if weightedCount + n <= rate {
        currCount := currCount + n;
        v := Verdict(true, rate - weightedCount - n, window - elapsed, 0);
      } else {
        v := Verdict(false, rate - weightedCount, window - elapsed, window - elapsed);
      }
      assert Outcome(Sliding(prevCount, currCount, windowStart), v) == DecideSliding(rate, window, before, now, n);
      base.SetState(i, key, Sliding(prevCount, currCount, windowStart));
    }
  }

  class FixedWindowLimiter {
    const base: BaseLimiter
    const rate: int
    const window: int

    ghost predicate Valid()
      reads base.shards
    {
      rate > 0 && window > 0 && base.Valid()
    }

    ghost function Policy(): Policy
      requires rate > 0 && window > 0
    {
      RawPolicy.FixedWindow(rate, window)
    }

    constructor (config: Config)
      requires config.rate > 0
      ensures Valid() && fresh(base) && fresh(base.shards) && base.shards[..] == EmptyStore(config.shards)
      ensures rate == config.rate && window == if config.window <= 0 then NANO else config.window
    {
      base := new BaseLimiter(config.shards);
      rate := config.rate;
      window := if config.window <= 0 then NANO else config.window;
    }

    /** The factory: an error for a rate that is not positive. */
    static method Create(config: Config) returns (l: Option<FixedWindowLimiter>)
      ensures l.None? <==> config.rate <= 0
      ensures l.Some? ==>
        && fresh(l.value) && fresh(l.value.base) && fresh(l.value.base.shards)
        && l.value.Valid() && l.value.base.shards[..] == EmptyStore(config.shards)
        && l.value.Policy()
           == RawPolicy.FixedWindow(config.rate, if config.window <= 0 then NANO else config.window)
    {
      if config.rate <= 0 {
        return None;
      }
      var limiter := new FixedWindowLimiter(config);
      return Some(limiter);
    }

    method AllowN(key: Key, now: int, n: int) returns (v: Verdict)
      requires Valid()
      modifies base.shards
      ensures Valid()
      ensures Decided(v) == StoreReply(Policy(), old(base.shards[..]), Op.AllowN(key, now, n))
      ensures base.shards[..] == StoreAfter(Policy(), old(base.shards[..]), Op.AllowN(key, now, n))
    {
      var i := base.GetShard(key);
      ghost var before := Lookup(base.shards[..], key);
      var currentWindow := Truncate(now, window);
      var count, windowStart := 0, currentWindow;
      if key in base.shards[i] && base.shards[i][key].Fixed? && base.shards[i][key].windowStart >= currentWindow {
        count, windowStart := base.shards[i][key].count, base.shards[i][key].windowStart;
      }
      var elapsed := now - currentWindow;
      if count + n <= rate {
        count := count + n;
        v := Verdict(true, rate - count, window - elapsed, 0);
      } else {
        v := Verdict(false, rate - count, window - elapsed, window - elapsed);
      }
      assert Outcome(Fixed(count, windowStart), v) == DecideFixed(rate, window, before, now, n);
      base.SetState(i, key, Fixed(count, windowStart));
    }
  }
}
