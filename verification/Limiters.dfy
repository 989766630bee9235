/** The decision each keyed limiter takes for one key, and runs of such decisions.
    Token levels are integers in nanotokens, instants are integers in nanoseconds since
    Go's zero time; IEEE rounding of the original's float64 arithmetic is abstracted. */
module Limiters {
  import opened Common

  /** The four built-in limiters with the parameters their factories leave them with. */
  datatype RawPolicy =
    | TokenBucket(rate: int, burst: int)
    | LeakyBucket(rate: int, capacity: int)
    | SlidingWindow(rate: int, window: int)
    | FixedWindow(rate: int, window: int)

  ghost predicate WellFormed(p: RawPolicy) {
    p.rate > 0 &&
    match p
    case TokenBucket(_, burst) => burst > 0
    case LeakyBucket(_, capacity) => capacity > 0
    case SlidingWindow(_, window) => window > 0
    case FixedWindow(_, window) => window > 0
  }

  type Policy = p: RawPolicy | WellFormed(p) witness TokenBucket(1, 1)

  /** What a shard stores under a key: Go's `interface{}` holding one of four state types. */
  datatype KeyState =
    | Tokens(tokens: int, lastUpdate: int)
    | Water(water: int, lastUpdate: int)
    | Sliding(prevCount: int, currCount: int, windowStart: int)
    | Fixed(count: int, windowStart: int)

  datatype Verdict = Verdict(allowed: bool, remaining: int, resetAfter: int, retryAfter: int)

  datatype Outcome = Outcome(state: KeyState, verdict: Verdict)

  // ----- one decision -----

  /** The token level after refill at `now`; an absent (or foreign) state is a full bucket. */
  function TokenLevel(rate: int, burst: int, st: Option<KeyState>, now: int): int {
    if st.Some? && st.value.Tokens? then
      var level := st.value.tokens + (now - st.value.lastUpdate) * rate;
      if level > burst * NANO then burst * NANO else level
    else
      burst * NANO
  }

  function DecideToken(rate: int, burst: int, st: Option<KeyState>, now: int, n: int): Outcome
    requires rate > 0
  {
    var level := TokenLevel(rate, burst, st, now);
    var cost := n * NANO;
    if level >= cost then
      Outcome(Tokens(level - cost, now), Verdict(true, TruncDiv(level - cost, NANO), 0, 0))
    else
      Outcome(Tokens(level, now), Verdict(false, TruncDiv(level, NANO), 0, TruncDiv(cost - level, rate)))
  }

  /** The water level after draining at `now`; an absent (or foreign) state is an empty bucket. */
  function WaterLevel(rate: int, st: Option<KeyState>, now: int): int {
    if st.Some? && st.value.Water? then
      var level := st.value.water - (now - st.value.lastUpdate) * rate;
      if level < 0 then 0 else level
    else
      0
  }

  function DecideWater(rate: int, capacity: int, st: Option<KeyState>, now: int, n: int): Outcome
    requires rate > 0
  {
    var level := WaterLevel(rate, st, now);
    var cost := n * NANO;
    if level + cost <= capacity * NANO then
      Outcome(Water(level + cost, now),
              Verdict(true, TruncDiv(capacity * NANO - (level + cost), NANO), 0, 0))
    else
      Outcome(Water(level, now),
              Verdict(false, TruncDiv(capacity * NANO - level, NANO), 0,
                      TruncDiv(level + cost - capacity * NANO, rate)))
  }

  /** The counters after the window transition at `now`, with the carry-over branch as coded. */
  function SlideTo(window: int, st: Option<KeyState>, now: int): (s: KeyState)
    requires window > 0
    ensures s.Sliding?
  {
    var current := Truncate(now, window);
    var s := if st.Some? && st.value.Sliding? then st.value else Sliding(0, 0, current);
    if current <= s.windowStart then s
    else if current - s.windowStart >= window then Sliding(0, 0, current)
    else Sliding(s.currCount, 0, current)
  }

  /** int64(prev * weight + curr), with weight = (window - elapsed) / window. */
  function WeightedCount(window: int, s: KeyState, elapsed: int): int
    requires window > 0 && s.Sliding?
  {
    TruncDiv(s.prevCount * (window - elapsed) + s.currCount * window, window)
  }

  function DecideSliding(rate: int, window: int, st: Option<KeyState>, now: int, n: int): Outcome
    requires window > 0
  {
    var s := SlideTo(window, st, now);
    var elapsed := now - Truncate(now, window);
    var weighted := WeightedCount(window, s, elapsed);
    if weighted + n <= rate then
      Outcome(s.(currCount := s.currCount + n), Verdict(true, rate - weighted - n, window - elapsed, 0))
    else
      Outcome(s, Verdict(false, rate - weighted, window - elapsed, window - elapsed))
  }

  function DecideFixed(rate: int, window: int, st: Option<KeyState>, now: int, n: int): Outcome
    requires window > 0
  {
    var current := Truncate(now, window);
    var s := if st.Some? && st.value.Fixed? && st.value.windowStart >= current
             then st.value else Fixed(0, current);
    var elapsed := now - current;
    if s.count + n <= rate then
      Outcome(s.(count := s.count + n), Verdict(true, rate - (s.count + n), window - elapsed, 0))
    else
      Outcome(s, Verdict(false, rate - s.count, window - elapsed, window - elapsed))
  }

  /** AllowN for one key: the new state of that key and the answer. */
  function Decide(p: Policy, st: Option<KeyState>, now: int, n: int): Outcome {
    match p
    case TokenBucket(rate, burst) => DecideToken(rate, burst, st, now, n)
    case LeakyBucket(rate, capacity) => DecideWater(rate, capacity, st, now, n)
    case SlidingWindow(rate, window) => DecideSliding(rate, window, st, now, n)
    case FixedWindow(rate, window) => DecideFixed(rate, window, st, now, n)
  }

  // ----- whole histories of one key -----

  /** AllowN at an instant, or Reset. */
  datatype Event = Call(now: int, n: int) | Clear

  datatype Reply = Decided(verdict: Verdict) | Cleared

  function NextState(p: Policy, st: Option<KeyState>, e: Event): Option<KeyState> {
    match e
    case Call(now, n) => Some(Decide(p, st, now, n).state)
    case Clear => None
  }

  function ReplyTo(p: Policy, st: Option<KeyState>, e: Event): Reply {
    match e
    case Call(now, n) => Decided(Decide(p, st, now, n).verdict)
    case Clear => Cleared
  }

  /** The replies to a history, one per event, starting from state `st`. */
  function Run(p: Policy, st: Option<KeyState>, h: seq<Event>): (replies: seq<Reply>)
    ensures |replies| == |h|
    decreases |h|
  {
    if h == [] then [] else [ReplyTo(p, st, h[0])] + Run(p, NextState(p, st, h[0]), h[1..])
  }

  /** The key's state after a history. */
  function After(p: Policy, st: Option<KeyState>, h: seq<Event>): Option<KeyState>
    decreases |h|
  {
    if h == [] then st else After(p, NextState(p, st, h[0]), h[1..])
  }

  predicate Allowed(r: Reply) { r.Decided? && r.verdict.allowed }

  predicate Denied(r: Reply) { r.Decided? && !r.verdict.allowed }

  /** What one event spends. */
  function SpentBy(e: Event, r: Reply): int {
    if e.Call? && Allowed(r) then e.n else 0
  }

  /** The total cost of the allowed calls. */
  function Spent(h: seq<Event>, replies: seq<Reply>): int
    requires |h| == |replies|
  {
    if h == [] then 0 else SpentBy(h[0], replies[0]) + Spent(h[1..], replies[1..])
  }

  lemma SpentUnfolds(p: Policy, st: Option<KeyState>, h: seq<Event>)
    requires h != []
    ensures Spent(h, Run(p, st, h))
         == SpentBy(h[0], ReplyTo(p, st, h[0])) + Spent(h[1..], Run(p, NextState(p, st, h[0]), h[1..]))
  {
    assert Run(p, st, h)[1..] == Run(p, NextState(p, st, h[0]), h[1..]);
  }

  /** Calls arrive at non-decreasing instants. */
  ghost predicate ClockForward(h: seq<Event>) {
    forall i, j :: 0 <= i < j < |h| && h[i].Call? && h[j].Call? ==> h[i].now <= h[j].now
  }

  ghost predicate NoClear(h: seq<Event>) {
    forall i :: 0 <= i < |h| ==> h[i].Call?
  }

  /** A run splits at any point: the second part runs from the state the first part leaves. */
  lemma {:induction false} RunSplits(p: Policy, st: Option<KeyState>, h: seq<Event>, i: nat)
    requires i <= |h|
    ensures Run(p, st, h)[..i] == Run(p, st, h[..i])
    ensures Run(p, st, h)[i..] == Run(p, After(p, st, h[..i]), h[i..])
    decreases i
  {
    if i > 0 {
      var next := NextState(p, st, h[0]);
      RunSplits(p, next, h[1..], i - 1);
      assert h[..i][1..] == h[1..][..i - 1];
      assert h[1..][i - 1..] == h[i..];
      assert Run(p, st, h)[i..] == Run(p, next, h[1..])[i - 1..];
      assert Run(p, st, h)[..i] == [ReplyTo(p, st, h[0])] + Run(p, next, h[1..])[..i - 1];
    }
  }

  /** The replies in a stretch are those of running the stretch from the state before it. */
  lemma RunStretch(p: Policy, st: Option<KeyState>, h: seq<Event>, i: nat, j: nat)
    requires i <= j <= |h|
    ensures Run(p, st, h)[i..j] == Run(p, After(p, st, h[..i]), h[i..j])
  {
    RunSplits(p, st, h, i);
    var s := After(p, st, h[..i]);
    RunSplits(p, s, h[i..], j - i);
    assert h[i..][..j - i] == h[i..j];
    assert Run(p, st, h)[i..j] == Run(p, st, h)[i..][..j - i];
  }

  lemma ReplyInRun(p: Policy, h: seq<Event>, i: nat)
    requires i < |h|
    ensures Run(p, None, h)[i] == ReplyTo(p, After(p, None, h[..i]), h[i])
  {
    RunSplits(p, None, h, i);
    assert Run(p, None, h)[i..][0] == Run(p, None, h)[i];
    assert h[i..][0] == h[i];
  }

  lemma {:induction false} AfterSplits(p: Policy, st: Option<KeyState>, h: seq<Event>, i: nat, j: nat)
    requires i <= j <= |h|
    ensures After(p, st, h[..j]) == After(p, After(p, st, h[..i]), h[i..j])
    decreases i
  {
    if i == 0 {
      assert h[..j] == h[0..j];
    } else {
      AfterSplits(p, NextState(p, st, h[0]), h[1..], i - 1, j - 1);
      assert h[..j][1..] == h[1..][..j - 1] && h[..i][1..] == h[1..][..i - 1];
      assert h[1..][i - 1..j - 1] == h[i..j];
    }
  }

  /** The last event of a history: its reply and the state after it. */
  lemma LastOfRun(p: Policy, h: seq<Event>)
    requires h != []
    ensures var g, last := h[..|h| - 1], h[|h| - 1];
            && Run(p, None, h) == Run(p, None, g) + [ReplyTo(p, After(p, None, g), last)]
            && After(p, None, h) == NextState(p, After(p, None, g), last)
  {
    var i := |h| - 1;
    var st := After(p, None, h[..i]);
    RunSplits(p, None, h, i);
    AfterSplits(p, None, h, i, i + 1);
    assert h[i..] == [h[i]] == h[i..i + 1] && h[..i + 1] == h && [h[i]][1..] == [];
    assert Run(p, st, [h[i]]) == [ReplyTo(p, st, h[i])];
    assert Run(p, None, h) == Run(p, None, h)[..i] + Run(p, None, h)[i..];
    assert After(p, st, [h[i]]) == After(p, NextState(p, st, h[i]), []);
  }
}
