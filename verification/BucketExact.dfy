/** Exactly which calls a token or leaky bucket allows, counted from the answers it gave. */
module BucketExact {
  import opened Common
  import opened Limiters
  import opened BucketTheorems

  /** Events `i` to the end of a history are calls. */
  ghost predicate TailOfCalls(h: seq<Event>, i: nat) {
    i <= |h| && NoClear(h[i..])
  }

  /** What event `i` of a history and the refill since leave of a full bucket at `t`, once what
      was allowed from event `i` on is taken out. */
  function LeftSince(rate: int, burst: int, h: seq<Event>, replies: seq<Reply>, i: nat, t: int): int
    requires i <= |h| == |replies|
  {
    (burst - Spent(h[i..], replies[i..])) * NANO + if i < |h| && h[i].Call? then rate * (t - h[i].now) else 0
  }

  lemma {:induction false} SpentAppend(h: seq<Event>, replies: seq<Reply>, e: Event, r: Reply)
    requires |h| == |replies|
    ensures Spent(h + [e], replies + [r]) == Spent(h, replies) + SpentBy(e, r)
  {
    if h == [] {
      assert [e][1..] == [] && [r][1..] == [];
      assert h + [e] == [e] && replies + [r] == [r];
    } else {
      SpentAppend(h[1..], replies[1..], e, r);
      assert (h + [e])[1..] == h[1..] + [e] && (replies + [r])[1..] == replies[1..] + [r];
    }
  }

  /** One more call takes its cost, if allowed, and adds the refill after it. */
  lemma LeftSinceAppend(rate: int, burst: int, h: seq<Event>, replies: seq<Reply>, e: Event, r: Reply, i: nat, t: int)
    requires |h| == |replies| && TailOfCalls(h, i) && e.Call?
    ensures LeftSince(rate, burst, h + [e], replies + [r], i, t)
         == LeftSince(rate, burst, h, replies, i, e.now) - SpentBy(e, r) * NANO + rate * (t - e.now)
  {
    SpentAppend(h[i..], replies[i..], e, r);
    assert (h + [e])[i..] == h[i..] + [e] && (replies + [r])[i..] == replies[i..] + [r];
    if i < |h| {
      assert h[i..][0].Call?;
      assert rate * (t - h[i].now) == rate * (e.now - h[i].now) + rate * (t - e.now);
    }
  }

  /** `level` is the least of what the calls since the last Reset leave, and of a full bucket. */
  ghost predicate IsLeast(rate: int, burst: int, h: seq<Event>, replies: seq<Reply>, t: int, level: int)
    requires |h| == |replies|
  {
    && (forall i: nat :: TailOfCalls(h, i) ==> level <= LeftSince(rate, burst, h, replies, i, t))
    && (exists i: nat :: TailOfCalls(h, i) && level == LeftSince(rate, burst, h, replies, i, t))
  }

  lemma TailEndsInCall(h: seq<Event>, i: nat)
    requires TailOfCalls(h, i) && i < |h|
    ensures h[|h| - 1].Call?
  {
    assert h[i..][|h| - 1 - i] == h[|h| - 1];
  }

  lemma FullBucketIsLeast(rate: int, burst: int, h: seq<Event>, replies: seq<Reply>, t: int)
    requires |h| == |replies| && (h == [] || h[|h| - 1].Clear?)
    ensures IsLeast(rate, burst, h, replies, t, burst * NANO)
  {
    forall i: nat | TailOfCalls(h, i) ensures i == |h| {
      if i < |h| { TailEndsInCall(h, i); }
    }
    assert TailOfCalls(h, |h|);
  }

  lemma TailAppend(h: seq<Event>, e: Event, i: nat)
    requires e.Call?
    ensures TailOfCalls(h + [e], i) <==> TailOfCalls(h, i) || i == |h| + 1
  {
    if i <= |h| {
      var tail := (h + [e])[i..];
      assert tail == h[i..] + [e];
      if NoClear(tail) {
        forall k | 0 <= k < |h[i..]| ensures h[i..][k].Call? { assert tail[k].Call?; }
      }
    }
  }

  /** The least after one more call: what it leaves now and refills to, but no more than full. */
  lemma LeastAfterCall(rate: int, burst: int, h: seq<Event>, replies: seq<Reply>, e: Event, r: Reply,
                       t: int, before: int, after: int)
    requires |h| == |replies| && e.Call? && IsLeast(rate, burst, h, replies, e.now, before)
    requires var refilled := before - SpentBy(e, r) * NANO + rate * (t - e.now);
             after == if refilled > burst * NANO then burst * NANO else refilled
    ensures IsLeast(rate, burst, h + [e], replies + [r], t, after)
  {
    var longer, told := h + [e], replies + [r];
    var full := |h| + 1;
    TailAppend(h, e, full);
    assert LeftSince(rate, burst, longer, told, full, t) == burst * NANO;
    forall i: nat | TailOfCalls(longer, i) ensures after <= LeftSince(rate, burst, longer, told, i, t) {
      TailAppend(h, e, i);
      if i <= |h| { LeftSinceAppend(rate, burst, h, replies, e, r, i, t); }
    }
    var i: nat :| TailOfCalls(h, i) && before == LeftSince(rate, burst, h, replies, i, e.now);
    TailAppend(h, e, i);
    LeftSinceAppend(rate, burst, h, replies, e, r, i, t);
  }

  /** The stored level, refilled to `t`, is that least value. */
  lemma {:induction false} LevelIsLeast(p: Policy, h: seq<Event>, t: int)
    requires p.TokenBucket?
    ensures var st := After(p, None, h);
            && (st.Some? ==> st.value.Tokens?)
            && IsLeast(p.rate, p.burst, h, Run(p, None, h), t, TokenLevel(p.rate, p.burst, st, t))
    decreases |h|
  {
    if h == [] || h[|h| - 1].Clear? {
      if h != [] { LastOfRun(p, h); }
      FullBucketIsLeast(p.rate, p.burst, h, Run(p, None, h), t);
    } else {
      var g, e := h[..|h| - 1], h[|h| - 1];
      var st := After(p, None, g);
      LastOfRun(p, h);
      LevelIsLeast(p, g, e.now);
      StepLevel(p, st, e, t);
      LeastAfterCall(p.rate, p.burst, g, Run(p, None, g), e, ReplyTo(p, st, e), t,
                     TokenLevel(p.rate, p.burst, st, e.now), TokenLevel(p.rate, p.burst, NextState(p, st, e), t));
      assert h == g + [e];
    }
  }

  lemma StepLevel(p: Policy, st: Option<KeyState>, e: Event, t: int)
    requires p.TokenBucket? && e.Call?
    ensures var next := NextState(p, st, e);
            var refilled := TokenLevel(p.rate, p.burst, st, e.now)
                            - SpentBy(e, ReplyTo(p, st, e)) * NANO + p.rate * (t - e.now);
            && next.Some? && next.value.Tokens?
            && TokenLevel(p.rate, p.burst, next, t) == if refilled > p.burst * NANO then p.burst * NANO else refilled
  {
  }

  /** The answer to a call that finds `level` nanotokens: allowed exactly if they cover its
      cost; Remaining is the whole tokens left then; RetryAfter is the time the rate needs for
      what is missing; both truncated. */
  ghost predicate ExactReply(rate: int, n: int, level: int, r: Reply)
    requires rate > 0
  {
    && r.Decided? && r.verdict.resetAfter == 0
    && (r.verdict.allowed <==> n * NANO <= level)
    && IsTruncated(r.verdict.remaining, if r.verdict.allowed then level - n * NANO else level, NANO)
    && (r.verdict.allowed ==> r.verdict.retryAfter == 0)
    && (!r.verdict.allowed ==> IsTruncated(r.verdict.retryAfter, n * NANO - level, rate))
  }

  /** Both buckets, with any clock, any costs and any resets: each call is answered from the
      least of a full bucket and of what every earlier call since the last Reset leaves of one,
      that is the burst, less the cost allowed from that call on, plus the refill since. */
  lemma {:induction false} BucketIsExact(p: Policy, h: seq<Event>, j: nat) returns (level: int)
    requires IsBucket(p) && j < |h| && h[j].Call?
    ensures IsLeast(p.rate, AsTokens(p).burst, h[..j], Run(p, None, h)[..j], h[j].now, level)
    ensures ExactReply(p.rate, h[j].n, level, Run(p, None, h)[j])
  {
    var q := AsTokens(p);
    RunAsTokens(p, h);
    var st := After(q, None, h[..j]);
    level := TokenLevel(q.rate, q.burst, st, h[j].now);
    LevelIsLeast(q, h[..j], h[j].now);
    RunSplits(q, None, h, j);
    ReplyInRun(q, h, j);
    var rest := if h[j].n * NANO <= level then level - h[j].n * NANO else level;
    TruncDivTruncates(rest, NANO);
    if h[j].n * NANO > level { TruncDivTruncates(h[j].n * NANO - level, q.rate); }
  }

  /** So a call is denied exactly when allowing it would spend more than the burst plus the
      refill since some earlier call, or more than the burst alone. */
  lemma {:induction false} DeniedIffSomeWindowIsFull(p: Policy, h: seq<Event>, j: nat)
    requires IsBucket(p) && j < |h| && h[j].Call?
    ensures Denied(Run(p, None, h)[j])
            <==> exists i: nat :: TailOfCalls(h[..j], i)
                   && h[j].n * NANO > LeftSince(p.rate, AsTokens(p).burst, h[..j], Run(p, None, h)[..j], i, h[j].now)
  {
    var level := BucketIsExact(p, h, j);
  }
}
