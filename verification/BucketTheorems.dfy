/** What the token bucket and the leaky bucket promise over whole histories of a key. */
module BucketTheorems {
  import opened Common
  import opened Limiters

  // ----- the token bucket and the leaky bucket are the same limiter -----

  /** The leaky bucket with the same parameters. */
  function Dual(p: Policy): Policy
    requires p.TokenBucket?
  {
    LeakyBucket(p.rate, p.burst)
  }

  /** Tokens left in one are room left in the other. */
  ghost predicate Mirrored(burst: int, tb: Option<KeyState>, lb: Option<KeyState>) {
    match (tb, lb)
    case (None, None) => true
    case (Some(Tokens(tokens, t)), Some(Water(water, u))) => t == u && tokens == burst * NANO - water
    case _ => false
  }

  lemma StepMirrored(p: Policy, tb: Option<KeyState>, lb: Option<KeyState>, e: Event)
    requires p.TokenBucket? && Mirrored(p.burst, tb, lb)
    ensures Mirrored(p.burst, NextState(p, tb, e), NextState(Dual(p), lb, e))
    ensures ReplyTo(p, tb, e) == ReplyTo(Dual(p), lb, e)
  {
    if e.Call? {
      assert TokenLevel(p.rate, p.burst, tb, e.now) == p.burst * NANO - WaterLevel(p.rate, lb, e.now);
    }
  }

  lemma {:induction false} RunsMirrored(p: Policy, tb: Option<KeyState>, lb: Option<KeyState>, h: seq<Event>)
    requires p.TokenBucket? && Mirrored(p.burst, tb, lb)
    ensures Run(p, tb, h) == Run(Dual(p), lb, h)
    ensures Mirrored(p.burst, After(p, tb, h), After(Dual(p), lb, h))
    decreases |h|
  {
    if h != [] {
      StepMirrored(p, tb, lb, h[0]);
      RunsMirrored(p, NextState(p, tb, h[0]), NextState(Dual(p), lb, h[0]), h[1..]);
    }
  }

  /** Every history of calls and resets, with any clock and any costs, gets the same answers
      (Allowed, Remaining and RetryAfter) from both limiters. */
  lemma {:induction false} TokenAndLeakyBucketsAgree(p: Policy, h: seq<Event>)
    requires p.TokenBucket?
    ensures Run(p, None, h) == Run(Dual(p), None, h)
  {
    RunsMirrored(p, None, None, h);
  }

  ghost predicate IsBucket(p: Policy) { p.TokenBucket? || p.LeakyBucket? }

  /** The token bucket a bucket policy behaves as. */
  function AsTokens(p: Policy): Policy
    requires IsBucket(p)
  {
    if p.TokenBucket? then p else TokenBucket(p.rate, p.capacity)
  }

  lemma RunAsTokens(p: Policy, h: seq<Event>)
    requires IsBucket(p)
    ensures Run(p, None, h) == Run(AsTokens(p), None, h)
  {
    if p.LeakyBucket? { TokenAndLeakyBucketsAgree(AsTokens(p), h); }
  }

  // ----- the any-window bound -----

  /** A stored token state is one a key can be in at instant `t`. */
  ghost predicate TokenStateOk(st: Option<KeyState>, t: int) {
    st.Some? ==> st.value.Tokens? && st.value.tokens >= 0 && st.value.lastUpdate <= t
  }

  lemma LevelNonNegative(p: Policy, st: Option<KeyState>, t: int)
    requires p.TokenBucket? && TokenStateOk(st, t)
    ensures 0 <= TokenLevel(p.rate, p.burst, st, t) <= p.burst * NANO
  {
    if st.Some? { ProductNonNegative(t - st.value.lastUpdate, p.rate); }
  }

  lemma StepKeepsTokenState(p: Policy, st: Option<KeyState>, e: Event)
    requires p.TokenBucket? && (e.Call? ==> TokenStateOk(st, e.now))
    ensures e.Call? ==> TokenStateOk(NextState(p, st, e), e.now)
    ensures e.Clear? ==> NextState(p, st, e) == None
    ensures e.Call? && e.n >= 0 ==> NextState(p, st, e).value.tokens <= p.burst * NANO
  {
    if e.Call? { LevelNonNegative(p, st, e.now); }
  }

  /** In every reachable state the level is non-negative, and at most the burst when no
      call ever had a negative cost. */
  lemma {:induction false} TokensStayInRange(p: Policy, st: Option<KeyState>, h: seq<Event>, t: int)
    requires p.TokenBucket? && ClockForward(h) && (h != [] ==> forall i :: 0 <= i < |h| && h[i].Call? ==> h[i].now <= t)
    requires forall i :: 0 <= i < |h| && h[i].Call? ==> TokenStateOk(st, h[i].now)
    requires TokenStateOk(st, t)
    ensures TokenStateOk(After(p, st, h), t)
    ensures (forall i :: 0 <= i < |h| && h[i].Call? ==> h[i].n >= 0)
            && (st.Some? ==> st.value.tokens <= p.burst * NANO)
            && After(p, st, h).Some?
            ==> 0 <= After(p, st, h).value.tokens <= p.burst * NANO
    decreases |h|
  {
    if h != [] {
      StepKeepsTokenState(p, st, h[0]);
      TokensStayInRange(p, NextState(p, st, h[0]), h[1..], t);
    }
  }

  lemma StepSpending(p: Policy, st: Option<KeyState>, e: Event, t: int)
    requires p.TokenBucket? && e.Call? && e.now <= t
    ensures NextState(p, st, e).value.Tokens?
    ensures SpentBy(e, ReplyTo(p, st, e)) * NANO + NextState(p, st, e).value.tokens
         == TokenLevel(p.rate, p.burst, st, e.now)
    ensures TokenLevel(p.rate, p.burst, NextState(p, st, e), t)
         <= NextState(p, st, e).value.tokens + p.rate * (t - e.now)
  {
  }

  /** Spending is paid for by the level at the first call and the refill since. */
  lemma {:induction false} SpendingIsPaidFor(p: Policy, st: Option<KeyState>, h: seq<Event>, end: int)
    requires p.TokenBucket? && |h| > 0 && NoClear(h) && ClockForward(h) && TokenStateOk(st, h[0].now)
    requires end == h[|h| - 1].now
    ensures Spent(h, Run(p, st, h)) * NANO
         <= TokenLevel(p.rate, p.burst, st, h[0].now) + p.rate * (end - h[0].now)
    decreases |h|
  {
    var next, rest := NextState(p, st, h[0]), h[1..];
    StepKeepsTokenState(p, st, h[0]);
    SpentUnfolds(p, st, h);
    if rest == [] {
      StepSpending(p, st, h[0], end);
      assert Spent(rest, Run(p, next, rest)) == 0;
    } else {
      StepSpending(p, st, h[0], rest[0].now);
      SpendingIsPaidFor(p, next, rest, end);
      assert p.rate * (rest[0].now - h[0].now) + p.rate * (end - rest[0].now) == p.rate * (end - h[0].now);
    }
  }

  lemma {:induction false} TokenBucketWindowBound(p: Policy, h: seq<Event>, i: nat, j: nat)
    requires p.TokenBucket? && ClockForward(h) && i <= j < |h| && NoClear(h[i..j + 1])
    requires h[i].Call? && h[j].Call?
    ensures Spent(h[i..j + 1], Run(p, None, h)[i..j + 1]) * NANO
         <= p.burst * NANO + p.rate * (h[j].now - h[i].now)
  {
    var stretch := h[i..j + 1];
    var st := After(p, None, h[..i]);
    assert stretch[0] == h[i] && stretch[|stretch| - 1] == h[j];
    TokensStayInRange(p, None, h[..i], h[i].now);
    RunStretch(p, None, h, i, j + 1);
    SpendingIsPaidFor(p, st, stretch, h[j].now);
    LevelNonNegative(p, st, h[i].now);
  }

  /** In any stretch of a key's history without a Reset, between any two calls i and j, the
      cost allowed by a token or leaky bucket is at most its burst (capacity) plus what the
      rate refills (drains) between the two calls. */
  lemma {:induction false} AnyWindowBound(p: Policy, h: seq<Event>, i: nat, j: nat)
    requires IsBucket(p) && ClockForward(h) && i <= j < |h| && NoClear(h[i..j + 1])
    ensures h[i].Call? && h[j].Call?
    ensures Spent(h[i..j + 1], Run(p, None, h)[i..j + 1]) * NANO
         <= AsTokens(p).burst * NANO + p.rate * (h[j].now - h[i].now)
  {
    assert h[i..j + 1][0] == h[i] && h[i..j + 1][j - i] == h[j];
    RunAsTokens(p, h);
    TokenBucketWindowBound(AsTokens(p), h, i, j);
  }

  // ----- denied calls leave no trace -----

  /** `st` is what a denied call (or nothing) has made of `older`. */
  ghost predicate Refreshed(p: Policy, st: Option<KeyState>, older: Option<KeyState>)
    requires p.TokenBucket?
  {
    && (st.Some? ==> st.value.Tokens?)
    && (older.Some? ==> older.value.Tokens?)
    && (st == older ||
        (st.Some?
         && (older.Some? ==> older.value.lastUpdate <= st.value.lastUpdate)
         && st.value.tokens == TokenLevel(p.rate, p.burst, older, st.value.lastUpdate)))
  }

  /** Clamped refill is additive: refilling in two steps or in one reaches the same level. */
  lemma RefillIsAdditive(p: Policy, st: Option<KeyState>, older: Option<KeyState>, t: int)
    requires p.TokenBucket? && Refreshed(p, st, older)
    requires st.Some? ==> st.value.lastUpdate <= t
    ensures TokenLevel(p.rate, p.burst, st, t) == TokenLevel(p.rate, p.burst, older, t)
  {
    if st != older {
      ProductNonNegative(t - st.value.lastUpdate, p.rate);
      if older.Some? {
        assert (t - older.value.lastUpdate) * p.rate
            == (t - st.value.lastUpdate) * p.rate + (st.value.lastUpdate - older.value.lastUpdate) * p.rate;
      }
    }
  }

  /** The elements whose mark is set. */
  function Keep<T>(s: seq<T>, mask: seq<bool>): seq<T>
    requires |s| == |mask|
  {
    if s == [] then [] else (if mask[0] then [s[0]] else []) + Keep(s[1..], mask[1..])
  }

  ghost predicate NotAfter(st: Option<KeyState>, h: seq<Event>) {
    st.Some? ==> st.value.Tokens? && forall i :: 0 <= i < |h| && h[i].Call? ==> st.value.lastUpdate <= h[i].now
  }

  ghost predicate OnlyDeniedDropped(replies: seq<Reply>, mask: seq<bool>)
    requires |replies| == |mask|
  {
    forall i :: 0 <= i < |mask| && !mask[i] ==> Denied(replies[i])
  }

  lemma {:induction false} DroppingFromRefreshed(p: Policy, st: Option<KeyState>, older: Option<KeyState>,
                                                 h: seq<Event>, mask: seq<bool>)
    requires p.TokenBucket? && Refreshed(p, st, older) && ClockForward(h) && NotAfter(st, h)
    requires |mask| == |h| && OnlyDeniedDropped(Run(p, st, h), mask)
    ensures Run(p, older, Keep(h, mask)) == Keep(Run(p, st, h), mask)
    decreases |h|
  {
    if h != [] {
      var e, next := h[0], NextState(p, st, h[0]);
      var replies := Run(p, st, h);
      assert replies[1..] == Run(p, next, h[1..]);
      if e.Call? { RefillIsAdditive(p, st, older, e.now); }
      assert OnlyDeniedDropped(replies[1..], mask[1..]) by {
        forall i | 0 <= i < |mask[1..]| && !mask[1..][i] ensures Denied(replies[1..][i]) {
          assert !mask[i + 1];
        }
      }
      if mask[0] {
        DroppingFromRefreshed(p, next, NextState(p, older, e), h[1..], mask[1..]);
        var kept := Keep(h, mask);
        assert kept[0] == e && kept[1..] == Keep(h[1..], mask[1..]);
      } else {
        assert Denied(replies[0]);
        DroppingFromRefreshed(p, next, older, h[1..], mask[1..]);
        assert Keep(h, mask) == Keep(h[1..], mask[1..]);
      }
    }
  }

  /** Deleting any set of denied calls from a token- or leaky-bucket history (or, read the
      other way, inserting calls that get denied) changes no other answer. */
  lemma {:induction false} DeniedCallsAreInvisible(p: Policy, h: seq<Event>, mask: seq<bool>)
    requires IsBucket(p) && ClockForward(h) && |mask| == |h| && OnlyDeniedDropped(Run(p, None, h), mask)
    ensures Run(p, None, Keep(h, mask)) == Keep(Run(p, None, h), mask)
  {
    RunAsTokens(p, h);
    RunAsTokens(p, Keep(h, mask));
    DroppingFromRefreshed(AsTokens(p), None, None, h, mask);
  }

  // ----- RetryAfter -----

  lemma RefreshedTwice(p: Policy, st: Option<KeyState>, mid: Option<KeyState>, older: Option<KeyState>)
    requires p.TokenBucket? && Refreshed(p, st, mid) && Refreshed(p, mid, older)
    ensures Refreshed(p, st, older)
  {
    if st != mid && mid != older { RefillIsAdditive(p, mid, older, st.value.lastUpdate); }
  }

  /** A run of denied calls refreshes the state and does nothing else. */
  lemma {:induction false} DeniedRunRefreshes(p: Policy, st: Option<KeyState>, h: seq<Event>)
    requires p.TokenBucket? && ClockForward(h) && NotAfter(st, h)
    requires forall i :: 0 <= i < |h| ==> Denied(Run(p, st, h)[i])
    ensures Refreshed(p, After(p, st, h), st)
    ensures NoClear(h)
    ensures h != [] ==> After(p, st, h).Some? && After(p, st, h).value.lastUpdate == h[|h| - 1].now
    decreases |h|
  {
    if h != [] {
      var next := NextState(p, st, h[0]);
      assert Denied(Run(p, st, h)[0]);
      assert h[0].Call?;
      assert Run(p, st, h)[1..] == Run(p, next, h[1..]);
      assert forall i :: 0 <= i < |h| - 1 ==> Run(p, next, h[1..])[i] == Run(p, st, h)[i + 1];
      DeniedRunRefreshes(p, next, h[1..]);
      RefreshedTwice(p, After(p, st, h), next, st);
    }
  }

  /** How many nanotokens a call of cost `n` after history `before` is short of. */
  function Shortfall(p: Policy, before: seq<Event>, now: int, n: int): int
    requires IsBucket(p)
  {
    var q := AsTokens(p);
    n * NANO - TokenLevel(q.rate, q.burst, After(q, None, before), now)
  }

  lemma {:induction false} RetryAtLevel(p: Policy, st: Option<KeyState>, now: int, later: int, n: int)
    requires p.TokenBucket? && now <= later && !Decide(p, st, now, n).verdict.allowed
    requires TokenStateOk(st, now)
    ensures var need := n * NANO - TokenLevel(p.rate, p.burst, st, now);
            var d := Decide(p, st, now, n).verdict.retryAfter;
            Decide(p, st, later, n).verdict.allowed
            <==> n <= p.burst && (later - now > d || (later - now == d && need % p.rate == 0))
  {
    var level := TokenLevel(p.rate, p.burst, st, now);
    var need := n * NANO - level;
    var w := later - now;
    TruncatedWait(need, p.rate, w);
    var mid := Some(Tokens(level, now));
    RefillIsAdditive(p, mid, st, later);
    assert TokenLevel(p.rate, p.burst, mid, later)
        == if level + p.rate * w > p.burst * NANO then p.burst * NANO else level + p.rate * w;
  }

  /** Between a denial and a retry with nothing allowed in between, the state is only refreshed. */
  lemma StateUntilRetry(p: Policy, h: seq<Event>, i: nat, j: nat)
    requires p.TokenBucket? && ClockForward(h) && i < j < |h| && h[j].Call?
    requires forall k :: i <= k < j ==> Denied(Run(p, None, h)[k])
    ensures h[i].Call? && Denied(ReplyTo(p, After(p, None, h[..i]), h[i]))
    ensures TokenStateOk(After(p, None, h[..i]), h[i].now)
    ensures Refreshed(p, After(p, None, h[..j]), After(p, None, h[..i]))
    ensures After(p, None, h[..j]).Some? && After(p, None, h[..j]).value.lastUpdate <= h[j].now
  {
    var st := After(p, None, h[..i]);
    assert Denied(Run(p, None, h)[i]);
    ReplyInRun(p, h, i);
    TokensStayInRange(p, None, h[..i], h[i].now);
    RunStretch(p, None, h, i, j);
    var between := h[i..j];
    forall k | 0 <= k < |between| ensures Denied(Run(p, st, between)[k]) {
      assert Run(p, st, between)[k] == Run(p, None, h)[i + k];
    }
    DeniedRunRefreshes(p, st, between);
    AfterSplits(p, None, h, i, j);
  }

  lemma {:induction false} RetryAfterIsExactForTokens(p: Policy, h: seq<Event>, i: nat, j: nat)
    requires p.TokenBucket? && ClockForward(h) && i < j < |h| && h[i].Call? && h[j].Call? && h[j].n == h[i].n
    requires forall k :: i <= k < j ==> Denied(Run(p, None, h)[k])
    ensures Denied(Run(p, None, h)[i])
    ensures var d := Run(p, None, h)[i].verdict.retryAfter;
            var waited := h[j].now - h[i].now;
            Allowed(Run(p, None, h)[j])
            <==> h[i].n <= p.burst
                 && (waited > d || (waited == d && Shortfall(p, h[..i], h[i].now, h[i].n) % p.rate == 0))
  {
    StateUntilRetry(p, h, i, j);
    ReplyInRun(p, h, i);
    ReplyInRun(p, h, j);
    var st, late := After(p, None, h[..i]), After(p, None, h[..j]);
    RefillIsAdditive(p, late, st, h[j].now);
    RetryAtLevel(p, st, h[i].now, h[j].now, h[i].n);
    assert Decide(p, late, h[j].now, h[j].n).verdict.allowed == Decide(p, st, h[j].now, h[i].n).verdict.allowed;
  }

  /** After a denial at event i, a retry of the same cost at event j, with nothing allowed in
      between, is allowed exactly when the cost fits the burst and more than RetryAfter has
      passed, or exactly RetryAfter and the truncation in it lost nothing. */
  lemma {:induction false} RetryAfterIsExact(p: Policy, h: seq<Event>, i: nat, j: nat)
    requires IsBucket(p) && ClockForward(h) && i < j < |h| && h[i].Call? && h[j].Call? && h[j].n == h[i].n
    requires forall k :: i <= k < j ==> Denied(Run(p, None, h)[k])
    ensures Denied(Run(p, None, h)[i])
    ensures var d := Run(p, None, h)[i].verdict.retryAfter;
            var waited := h[j].now - h[i].now;
            Allowed(Run(p, None, h)[j])
            <==> h[i].n <= AsTokens(p).burst
                 && (waited > d || (waited == d && Shortfall(p, h[..i], h[i].now, h[i].n) % p.rate == 0))
  {
    RunAsTokens(p, h);
    RetryAfterIsExactForTokens(AsTokens(p), h, i, j);
  }

  /** RetryAfter itself is not always long enough: whatever the burst, a caller denied one token
      by an empty bucket that waits exactly RetryAfter is denied again exactly when the rate
      does not divide a second. */
  lemma RetryAfterCanBeOneShort(rate: int, burst: int)
    requires rate > 0 && burst > 0
    ensures var h := [Call(0, burst), Call(0, 1), Call(NANO / rate, 1)];
            var replies := Run(TokenBucket(rate, burst), None, h);
            && Denied(replies[1]) && replies[1].verdict.retryAfter == NANO / rate
            && (Denied(replies[2]) <==> NANO % rate != 0)
  {
    var p: Policy := TokenBucket(rate, burst);
    var a, b, c := Call(0, burst), Call(0, 1), Call(NANO / rate, 1);
    var empty := Some(Tokens(0, 0));
    assert NextState(p, None, a) == empty;
    assert ReplyTo(p, empty, b) == Decided(Verdict(false, 0, 0, NANO / rate)) && NextState(p, empty, b) == empty;
    RefillOfOneWait(rate, burst);
    assert Denied(ReplyTo(p, empty, c)) <==> NANO % rate != 0;
    RunOfThree(p, empty, empty, a, b, c);
  }

  lemma RefillOfOneWait(rate: int, burst: int)
    requires rate > 0 && burst > 0
    ensures (NANO / rate - 0) * rate == NANO - NANO % rate <= burst * NANO
  {
    ProductMonotonic(1, burst, NANO);
  }

  /** A run of three events, through the states after the first and the second. */
  lemma RunOfThree(p: Policy, s: Option<KeyState>, t: Option<KeyState>, a: Event, b: Event, c: Event)
    requires s == NextState(p, None, a) && t == NextState(p, s, b)
    ensures Run(p, None, [a, b, c]) == [ReplyTo(p, None, a), ReplyTo(p, s, b), ReplyTo(p, t, c)]
  {
    assert [a, b, c][1..] == [b, c] && [b, c][1..] == [c] && [c][1..] == [];
    assert Run(p, t, [c]) == [ReplyTo(p, t, c)];
    assert Run(p, s, [b, c]) == [ReplyTo(p, s, b)] + Run(p, t, [c]);
  }
}
