/** Exactly which calls a window limiter allows, counted from the answers it gave. */
module WindowExact {
  import opened Common
  import opened Limiters
  import opened WindowTheorems

  /** The cost allowed in window number `w` since the last Reset. */
  function AllowedIn(window: int, w: int, h: seq<Event>, replies: seq<Reply>): int
    requires window > 0 && |h| == |replies|
  {
    if h == [] then 0
    else
      var last := |h| - 1;
      if h[last].Clear? then 0
      else AllowedIn(window, w, h[..last], replies[..last])
           + if h[last].now / window == w && Allowed(replies[last]) then h[last].n else 0
  }

  ghost predicate NoneAfter(h: seq<Event>, t: int) {
    forall i :: 0 <= i < |h| && h[i].Call? ==> h[i].now <= t
  }

  /** One call moves the stored count as it moves the cost allowed in the window of `t`. */
  lemma StepUsed(p: Policy, st: Option<KeyState>, e: Event, t: int)
    requires p.FixedWindow? && e.Call? && e.now <= t
    requires st.Some? ==> st.value.Fixed? && st.value.windowStart <= Truncate(e.now, p.window)
    ensures var next := NextState(p, st, e);
            && next.Some? && next.value.Fixed? && next.value.windowStart <= Truncate(t, p.window)
            && UsedAt(p, next, t) == if t / p.window == e.now / p.window
                                     then UsedAt(p, st, e.now) + SpentBy(e, ReplyTo(p, st, e))
                                     else UsedAt(p, st, t)
  {
    LaterWindow(p, e.now, t);
  }

  /** The stored count is the cost allowed in the current window since the last Reset. */
  lemma {:induction false} UsedIsAllowed(p: Policy, h: seq<Event>, t: int)
    requires p.FixedWindow? && ClockForward(h) && NoneAfter(h, t)
    ensures var st := After(p, None, h);
            && (st.Some? ==> st.value.Fixed? && st.value.windowStart <= Truncate(t, p.window))
            && UsedAt(p, st, t) == AllowedIn(p.window, t / p.window, h, Run(p, None, h))
    decreases |h|
  {
    if h != [] {
      var g, e := h[..|h| - 1], h[|h| - 1];
      LastOfRun(p, h);
      if e.Call? {
        UsedIsAllowed(p, g, e.now);
        UsedIsAllowed(p, g, t);
        StepUsed(p, After(p, None, g), e, t);
      }
    }
  }

  lemma WindowEnd(now: int, window: int)
    requires window > 0
    ensures now + (window - (now - Truncate(now, window))) == (now / window + 1) * window
  {
    TruncateIsWindowIndex(now, window);
  }

  lemma {:induction false} FixedWindowIsExact(p: Policy, h: seq<Event>, i: nat)
    requires p.FixedWindow? && ClockForward(h) && i < |h| && h[i].Call?
    ensures ExactReply(p, h[i], AllowedIn(p.window, h[i].now / p.window, h[..i], Run(p, None, h)[..i]),
                       Run(p, None, h)[i])
  {
    UsedIsAllowed(p, h[..i], h[i].now);
    RunSplits(p, None, h, i);
    ReplyInRun(p, h, i);
    WindowEnd(h[i].now, p.window);
  }

  /** The answer to a call whose window had `used` allowed before: allowed exactly if its cost
      still fits the rate; Remaining is what is left of the rate then; ResetAfter ends at the
      next window, and a denied call is sent there. */
  ghost predicate ExactReply(p: Policy, e: Event, used: int, r: Reply)
    requires IsWindow(p) && e.Call?
  {
    && r.Decided?
    && (r.verdict.allowed <==> used + e.n <= p.rate)
    && r.verdict.remaining == p.rate - used - (if r.verdict.allowed then e.n else 0)
    && e.now + r.verdict.resetAfter == (e.now / p.window + 1) * p.window
    && r.verdict.retryAfter == if r.verdict.allowed then 0 else r.verdict.resetAfter
  }

  /** Both window limiters: with a forward clock every call of every history is allowed exactly
      when the cost allowed in its window since the last Reset leaves room for its own, and
      the numbers in the answer are exact too. */
  lemma {:induction false} WindowIsExact(p: Policy, h: seq<Event>, i: nat)
    requires IsWindow(p) && ClockForward(h) && i < |h| && h[i].Call?
    ensures ExactReply(p, h[i], AllowedIn(p.window, h[i].now / p.window, h[..i], Run(p, None, h)[..i]),
                       Run(p, None, h)[i])
  {
    if p.SlidingWindow? {
      SlidingWindowIsFixedWindow(p, h);
      FixedWindowIsExact(Unslid(p), h, i);
    } else {
      FixedWindowIsExact(p, h, i);
    }
  }

  // ----- RetryAfter -----

  lemma {:induction false} NothingAllowedYet(window: int, w: int, h: seq<Event>, replies: seq<Reply>)
    requires window > 0 && |h| == |replies|
    requires forall k :: 0 <= k < |h| && h[k].Call? && Allowed(replies[k]) ==> h[k].now / window < w
    ensures AllowedIn(window, w, h, replies) == 0
  {
    if h != [] { NothingAllowedYet(window, w, h[..|h| - 1], replies[..|h| - 1]); }
  }

  lemma {:induction false} DeniedAddNothing(window: int, w: int, h: seq<Event>, replies: seq<Reply>, i: nat)
    requires window > 0 && |h| == |replies| && i <= |h| && NoClear(h[i..])
    requires forall k :: i <= k < |h| ==> !Allowed(replies[k])
    ensures AllowedIn(window, w, h, replies) == AllowedIn(window, w, h[..i], replies[..i])
  {
    if i < |h| {
      var last := |h| - 1;
      assert h[i..][last - i] == h[last];
      assert h[i..last] == h[i..][..last - i];
      assert h[..last][i..] == h[i..last] && h[..last][..i] == h[..i] && replies[..last][..i] == replies[..i];
      DeniedAddNothing(window, w, h[..last], replies[..last], i);
    } else {
      assert h[..i] == h && replies[..i] == replies;
    }
  }

  lemma {:induction false} AllowedNonNegative(window: int, w: int, h: seq<Event>, replies: seq<Reply>)
    requires window > 0 && |h| == |replies| && NonNegativeCosts(h)
    ensures AllowedIn(window, w, h, replies) >= 0
  {
    if h != [] { AllowedNonNegative(window, w, h[..|h| - 1], replies[..|h| - 1]); }
  }

  lemma LaterWindows(t: int, u: int, window: int)
    requires window > 0
    ensures t <= u ==> t / window <= u / window
    ensures u / window > t / window <==> u >= (t / window + 1) * window
  {
    TruncateIsWindowIndex(t, window);
    TruncateIsWindowIndex(u, window);
    var a, b := t / window, u / window;
    if b > a { ProductMonotonic(a + 1, b, window); }
    if b < a { ProductMonotonic(b + 1, a, window); }
    if b <= a { ProductMonotonic(b + 1, a + 1, window); }
  }

  /** After a denial at event i, with nothing allowed since, a retry of the same cost at event
      j is allowed exactly when the cost fits the rate and RetryAfter has passed. */
  lemma {:induction false} RetryAfterIsExact(p: Policy, h: seq<Event>, i: nat, j: nat)
    requires IsWindow(p) && ClockForward(h) && NonNegativeCosts(h)
    requires i < j < |h| && h[i].Call? && h[j].Call? && h[j].n == h[i].n
    requires forall k :: i <= k < j ==> Denied(Run(p, None, h)[k])
    ensures Denied(Run(p, None, h)[i])
    ensures Allowed(Run(p, None, h)[j])
            <==> h[i].n <= p.rate && h[j].now - h[i].now >= Run(p, None, h)[i].verdict.retryAfter
  {
    var replies := Run(p, None, h);
    var w, v := h[i].now / p.window, h[j].now / p.window;
    WindowIsExact(p, h, i);
    WindowIsExact(p, h, j);
    assert Denied(replies[i]);
    LaterWindows(h[i].now, h[j].now, p.window);
    AllowedNonNegative(p.window, v, h[..j], replies[..j]);
    if v > w {
      forall k | 0 <= k < j && h[k].Call? && Allowed(replies[k]) ensures h[k].now / p.window < v {
        assert k < i;
        LaterWindows(h[k].now, h[i].now, p.window);
      }
      NothingAllowedYet(p.window, v, h[..j], replies[..j]);
    } else {
      StretchOfDenials(p, h, i, j);
      DeniedAddNothing(p.window, w, h[..j], replies[..j], i);
      assert h[..j][..i] == h[..i] && replies[..j][..i] == replies[..i];
    }
  }

  lemma StretchOfDenials(p: Policy, h: seq<Event>, i: nat, j: nat)
    requires i <= j <= |h| && forall k :: i <= k < j ==> Denied(Run(p, None, h)[k])
    ensures NoClear(h[..j][i..])
  {
    forall k | 0 <= k < |h[..j][i..]| ensures h[..j][i..][k].Call? {
      assert Denied(Run(p, None, h)[i + k]);
      ReplyInRun(p, h, i + k);
    }
  }
}
