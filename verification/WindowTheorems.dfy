/** What the fixed window and the sliding window promise over whole histories of a key. */
module WindowTheorems {
  import opened Common
  import opened Limiters

  // ----- the sliding window is a fixed window -----

  /** The fixed window with the same parameters. */
  function Unslid(p: Policy): Policy
    requires p.SlidingWindow?
  {
    FixedWindow(p.rate, p.window)
  }

  /** Same counter and same window start; nothing ever carried over; windows stay aligned. */
  ghost predicate SameWindow(window: int, sw: Option<KeyState>, fw: Option<KeyState>)
    requires window > 0
  {
    match (sw, fw)
    case (None, None) => true
    case (Some(Sliding(prev, curr, start)), Some(Fixed(count, start'))) =>
      prev == 0 && curr == count && start == start' && start % window == 0
    case _ => false
  }

  lemma WeightedCountIsCurrent(window: int, s: KeyState, elapsed: int)
    requires window > 0 && s.Sliding? && s.prevCount == 0
    ensures WeightedCount(window, s, elapsed) == s.currCount
  {
    MultipleHasNoRemainder(s.currCount, window);
    MultipleHasNoRemainder(-s.currCount, window);
    assert -(s.currCount * window) == (-s.currCount) * window;
    assert s.currCount * window >= 0 || (-s.currCount) * window >= 0;
  }

  /** Because both window starts are aligned, the branch that carries the count over is dead. */
  lemma {:induction false} TransitionDropsTheCount(window: int, sw: Option<KeyState>, fw: Option<KeyState>, now: int)
    requires window > 0 && SameWindow(window, sw, fw)
    ensures var current := Truncate(now, window);
            var s := SlideTo(window, sw, now);
            var f := if fw.Some? && fw.value.windowStart >= current then fw.value else Fixed(0, current);
            SameWindow(window, Some(s), Some(f))
  {
    TruncateIsWindowIndex(now, window);
    var current := Truncate(now, window);
    if sw.Some? && sw.value.windowStart < current {
      AlignedGap(sw.value.windowStart, current, window);
    }
  }

  lemma {:induction false} StepSameWindow(p: Policy, sw: Option<KeyState>, fw: Option<KeyState>, e: Event)
    requires p.SlidingWindow? && SameWindow(p.window, sw, fw)
    ensures SameWindow(p.window, NextState(p, sw, e), NextState(Unslid(p), fw, e))
    ensures ReplyTo(p, sw, e) == ReplyTo(Unslid(p), fw, e)
  {
    if e.Call? {
      TransitionDropsTheCount(p.window, sw, fw, e.now);
      WeightedCountIsCurrent(p.window, SlideTo(p.window, sw, e.now), e.now - Truncate(e.now, p.window));
    }
  }

  lemma {:induction false} RunsSameWindow(p: Policy, sw: Option<KeyState>, fw: Option<KeyState>, h: seq<Event>)
    requires p.SlidingWindow? && SameWindow(p.window, sw, fw)
    ensures Run(p, sw, h) == Run(Unslid(p), fw, h)
    ensures SameWindow(p.window, After(p, sw, h), After(Unslid(p), fw, h))
    decreases |h|
  {
    if h != [] {
      StepSameWindow(p, sw, fw, h[0]);
      RunsSameWindow(p, NextState(p, sw, h[0]), NextState(Unslid(p), fw, h[0]), h[1..]);
    }
  }

  /** As coded, the sliding window answers every history (any clock, even one that steps
      back, any costs, any resets) exactly as the fixed window does: Allowed, Remaining,
      ResetAfter and RetryAfter all agree, and no count is ever carried over. */
  lemma {:induction false} SlidingWindowIsFixedWindow(p: Policy, h: seq<Event>)
    requires p.SlidingWindow?
    ensures Run(p, None, h) == Run(Unslid(p), None, h)
    ensures After(p, None, h).Some? ==> After(p, None, h).value.Sliding? && After(p, None, h).value.prevCount == 0
  {
    RunsSameWindow(p, None, None, h);
  }

  // ----- the interval bound -----

  ghost predicate IsWindow(p: Policy) { p.FixedWindow? || p.SlidingWindow? }

  ghost predicate NonNegativeCosts(h: seq<Event>) {
    forall i :: 0 <= i < |h| && h[i].Call? ==> h[i].n >= 0
  }

  /** A stored fixed-window state is one a key can be in at instant `t`. */
  ghost predicate CountStateOk(p: Policy, st: Option<KeyState>, t: int)
    requires p.FixedWindow?
  {
    st.Some? ==> st.value.Fixed? && 0 <= st.value.count <= p.rate && st.value.windowStart <= Truncate(t, p.window)
  }

  /** How much of the rate is already used in the window of `t`. */
  function UsedAt(p: Policy, st: Option<KeyState>, t: int): int
    requires p.FixedWindow?
  {
    if st.Some? && st.value.Fixed? && st.value.windowStart == Truncate(t, p.window) then st.value.count else 0
  }

  /** The number of the window an instant falls into. */
  function WindowOf(p: Policy, t: int): int
    requires IsWindow(p)
  {
    t / p.window
  }

  lemma LaterWindow(p: Policy, t: int, u: int)
    requires p.FixedWindow? && t <= u
    ensures Truncate(t, p.window) <= Truncate(u, p.window) && WindowOf(p, t) <= WindowOf(p, u)
    ensures Truncate(t, p.window) == Truncate(u, p.window) <==> WindowOf(p, t) == WindowOf(p, u)
  {
    TruncateIsWindowIndex(t, p.window);
    TruncateIsWindowIndex(u, p.window);
    var a, b := t / p.window, u / p.window;
    if b < a { ProductMonotonic(b + 1, a, p.window); }
    if a < b { ProductMonotonic(a + 1, b, p.window); }
  }

  lemma {:induction false} StepCount(p: Policy, st: Option<KeyState>, e: Event, t: int)
    requires p.FixedWindow? && e.Call? && e.n >= 0 && e.now <= t && CountStateOk(p, st, e.now)
    ensures CountStateOk(p, NextState(p, st, e), t)
    ensures 0 <= UsedAt(p, NextState(p, st, e), e.now) <= p.rate
    ensures UsedAt(p, NextState(p, st, e), e.now)
         == UsedAt(p, st, e.now) + SpentBy(e, ReplyTo(p, st, e))
    ensures UsedAt(p, NextState(p, st, e), t)
         == if WindowOf(p, t) == WindowOf(p, e.now) then UsedAt(p, NextState(p, st, e), e.now) else 0
  {
    LaterWindow(p, e.now, t);
  }

  lemma {:induction false} CountsStayInRange(p: Policy, st: Option<KeyState>, h: seq<Event>, t: int)
    requires p.FixedWindow? && ClockForward(h) && NonNegativeCosts(h)
    requires forall i :: 0 <= i < |h| && h[i].Call? ==> h[i].now <= t
    requires forall i :: 0 <= i < |h| && h[i].Call? ==> CountStateOk(p, st, h[i].now)
    requires CountStateOk(p, st, t)
    ensures CountStateOk(p, After(p, st, h), t)
    decreases |h|
  {
    if h != [] {
      if h[0].Call? {
        StepCount(p, st, h[0], t);
        forall i | 0 <= i < |h[1..]| && h[1..][i].Call? ensures CountStateOk(p, NextState(p, st, h[0]), h[1..][i].now) {
          StepCount(p, st, h[0], h[i + 1].now);
        }
      }
      CountsStayInRange(p, NextState(p, st, h[0]), h[1..], t);
    }
  }

  lemma PaymentsAddUp(rate: int, spent: int, later: int, used: int, usedAfter: int, usedNext: int,
                      w0: int, w1: int, w2: int)
    requires 0 <= usedAfter <= rate && usedAfter == used + spent && w0 <= w1
    requires usedNext == (if w1 == w0 then usedAfter else 0)
    requires later <= rate * (w2 - w1 + 1) - usedNext
    ensures spent + later <= rate * (w2 - w0 + 1) - used
  {
    if w0 < w1 { ProductMonotonic(w2 - w1 + 2, w2 - w0 + 1, rate); }
  }

  /** Each window reached pays for at most `rate`; the first one only for what is unused. */
  lemma {:induction false} WindowsPay(p: Policy, st: Option<KeyState>, h: seq<Event>, end: int)
    requires p.FixedWindow? && h != [] && NoClear(h) && ClockForward(h) && NonNegativeCosts(h)
    requires CountStateOk(p, st, h[0].now) && end == h[|h| - 1].now
    ensures Spent(h, Run(p, st, h))
         <= p.rate * (WindowOf(p, end) - WindowOf(p, h[0].now) + 1) - UsedAt(p, st, h[0].now)
    decreases |h|
  {
    var next, rest := NextState(p, st, h[0]), h[1..];
    SpentUnfolds(p, st, h);
    if rest == [] {
      StepCount(p, st, h[0], end);
      assert Spent(rest, Run(p, next, rest)) == 0;
    } else {
      StepCount(p, st, h[0], rest[0].now);
      LaterWindow(p, h[0].now, rest[0].now);
      WindowsPay(p, next, rest, end);
      PaymentsAddUp(p.rate, SpentBy(h[0], ReplyTo(p, st, h[0])), Spent(rest, Run(p, next, rest)),
                    UsedAt(p, st, h[0].now), UsedAt(p, next, h[0].now), UsedAt(p, next, rest[0].now),
                    WindowOf(p, h[0].now), WindowOf(p, rest[0].now), WindowOf(p, end));
    }
  }

  lemma {:induction false} FixedWindowBound(p: Policy, h: seq<Event>, i: nat, j: nat)
    requires p.FixedWindow? && ClockForward(h) && NonNegativeCosts(h) && i <= j < |h| && NoClear(h[i..j + 1])
    requires h[i].Call? && h[j].Call?
    ensures Spent(h[i..j + 1], Run(p, None, h)[i..j + 1])
         <= p.rate * (WindowOf(p, h[j].now) - WindowOf(p, h[i].now) + 1)
  {
    var st, stretch := After(p, None, h[..i]), h[i..j + 1];
    StretchFacts(h, i, j);
    CountsStayInRange(p, None, h[..i], h[i].now);
    RunStretch(p, None, h, i, j + 1);
    WindowsPay(p, st, stretch, h[j].now);
    assert UsedAt(p, st, h[i].now) >= 0;
  }

  lemma StretchFacts(h: seq<Event>, i: nat, j: nat)
    requires ClockForward(h) && NonNegativeCosts(h) && i <= j < |h| && h[i].Call? && h[j].Call?
    ensures ClockForward(h[..i]) && NonNegativeCosts(h[..i])
    ensures forall k :: 0 <= k < i && h[..i][k].Call? ==> h[..i][k].now <= h[i].now
    ensures ClockForward(h[i..j + 1]) && NonNegativeCosts(h[i..j + 1])
    ensures h[i..j + 1][0] == h[i] && h[i..j + 1][|h[i..j + 1]| - 1] == h[j]
  {
  }

  /** With a forward clock and no Reset between calls i and j, the cost allowed from i to j is
      at most `rate` for every window the stretch touches; so at most twice the rate when
      the stretch is no longer than one window. */
  lemma {:induction false} IntervalBound(p: Policy, h: seq<Event>, i: nat, j: nat)
    requires IsWindow(p) && ClockForward(h) && NonNegativeCosts(h) && i <= j < |h| && NoClear(h[i..j + 1])
    ensures h[i].Call? && h[j].Call?
    ensures Spent(h[i..j + 1], Run(p, None, h)[i..j + 1])
         <= p.rate * (WindowOf(p, h[j].now) - WindowOf(p, h[i].now) + 1)
    ensures h[j].now - h[i].now <= p.window
            ==> Spent(h[i..j + 1], Run(p, None, h)[i..j + 1]) <= 2 * p.rate
  {
    assert h[i..j + 1][0] == h[i] && h[i..j + 1][j - i] == h[j];
    var q := if p.SlidingWindow? then Unslid(p) else p;
    if p.SlidingWindow? { SlidingWindowIsFixedWindow(p, h); }
    FixedWindowBound(q, h, i, j);
    if h[j].now - h[i].now <= p.window { NeighbouringWindows(p, h[i].now, h[j].now); }
  }

  lemma NeighbouringWindows(p: Policy, t: int, u: int)
    requires IsWindow(p) && t <= u <= t + p.window
    ensures p.rate * (WindowOf(p, u) - WindowOf(p, t) + 1) <= 2 * p.rate
  {
    TruncateIsWindowIndex(t, p.window);
    TruncateIsWindowIndex(u, p.window);
    var a, b := t / p.window, u / p.window;
    if b > a + 1 { ProductMonotonic(a + 2, b, p.window); }
    ProductMonotonic(b - a + 1, 2, p.rate);
  }
}
