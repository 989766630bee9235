/** Any number of local-cached limiters, each used by any number of goroutines, sharing one
    remote token server: a transition system with one step per critical section. */
module LocalCached {
  import opened Common
  import opened Counting
  import opened RemoteTokens

  // ----- one limiter, one turn of the AllowN loop under its lock -----

  datatype Limiter = Limiter(localTokens: int, rejectUntil: int, fetching: bool, waiters: int)

  /** NewLocalCachedLimiter: nothing cached; `rejectUntil` is the zero time. */
  const FRESH: Limiter := Limiter(0, 0, false, 0)

  datatype Turn = Allow | Reject(retryAfter: int) | Park | Fetch(batch: int)

  /** What the loop does from its top: local tokens first, then the rejection period, then
      wait for a running fetch, else fetch for at least as many as are waiting. */
  function Choose(prefetch: int, l: Limiter, now: int, n: int): Turn {
    if l.localTokens >= n then Allow
    else if now < l.rejectUntil then Reject(l.rejectUntil - now)
    else if l.fetching then Park
    else Fetch(if l.waiters > prefetch then l.waiters else prefetch)
  }

  function Take(l: Limiter, n: int, turn: Turn): Limiter {
    match turn
    case Allow => l.(localTokens := l.localTokens - n)
    case Reject(_) => l
    case Park => l.(waiters := l.waiters + 1)
    case Fetch(_) => l.(fetching := true)
  }

  /** The fetcher's lock region when its answer arrives; `stamp` is its clock reading. */
  function Landed(l: Limiter, granted: int, wait: int, stamp: int): Limiter {
    l.(fetching := false,
       localTokens := l.localTokens + granted,
       rejectUntil := if wait > 0 then stamp + wait else l.rejectUntil)
  }

  function Wiped(l: Limiter): Limiter {
    l.(localTokens := 0, rejectUntil := 0)
  }

  // ----- goroutines -----

  /** Where a goroutine is: outside AllowN; asleep in fetchCond.Wait; woken but not yet
      holding the lock again; fetching before or after the server answered. */
  datatype Pc =
    | Outside
    | Parked(n: int)
    | Woken(n: int)
    | Fetching(n: int, batch: int)
    | Fetched(n: int, granted: int, wait: int)

  datatype Goroutine = Goroutine(home: nat, pc: Pc)

  datatype Kind = Sleeping | Waiting | InFetch

  predicate Is(kind: Kind, g: Goroutine, l: nat) {
    g.home == l &&
    match kind
    case Sleeping => g.pc.Parked?
    case Waiting => g.pc.Parked? || g.pc.Woken?
    case InFetch => g.pc.Fetching? || g.pc.Fetched?
  }

  function OfKind(kind: Kind, l: nat): Goroutine -> bool { g => Is(kind, g, l) }

  /** How many goroutines of limiter `l` are of this kind. */
  function Count(gs: seq<Goroutine>, kind: Kind, l: nat): nat { CountIf(gs, OfKind(kind, l)) }

  function Carried(g: Goroutine): int {
    if g.pc.Fetched? then g.pc.granted else 0
  }

  /** Tokens granted by the server that have not reached their limiter yet. */
  function InFlight(gs: seq<Goroutine>): int {
    if gs == [] then 0 else Carried(gs[0]) + InFlight(gs[1..])
  }

  function Cached(ls: seq<Limiter>): int {
    if ls == [] then 0 else ls[0].localTokens + Cached(ls[1..])
  }

  /** fetchCond.Broadcast on limiter `l`. */
  function WakeAll(gs: seq<Goroutine>, l: nat): (woken: seq<Goroutine>)
    ensures |woken| == |gs|
  {
    seq(|gs|, i requires 0 <= i < |gs| =>
      if Is(Sleeping, gs[i], l) then gs[i].(pc := Woken(gs[i].pc.n)) else gs[i])
  }

  lemma {:induction false} InFlightUpdate(gs: seq<Goroutine>, i: nat, g: Goroutine)
    requires i < |gs|
    ensures InFlight(gs[i := g]) == InFlight(gs) - Carried(gs[i]) + Carried(g)
  {
    if i == 0 {
      assert gs[i := g][1..] == gs[1..];
    } else {
      InFlightUpdate(gs[1..], i - 1, g);
      assert gs[i := g][1..] == gs[1..][i - 1 := g];
    }
  }

  lemma {:induction false} InFlightSame(gs: seq<Goroutine>, hs: seq<Goroutine>)
    requires |gs| == |hs| && forall i :: 0 <= i < |gs| ==> Carried(gs[i]) == Carried(hs[i])
    ensures InFlight(gs) == InFlight(hs)
  {
    if gs != [] { InFlightSame(gs[1..], hs[1..]); }
  }

  lemma {:induction false} CachedUpdate(ls: seq<Limiter>, i: nat, l: Limiter)
    requires i < |ls|
    ensures Cached(ls[i := l]) == Cached(ls) - ls[i].localTokens + l.localTokens
  {
    if i == 0 {
      assert ls[i := l][1..] == ls[1..];
    } else {
      CachedUpdate(ls[1..], i - 1, l);
      assert ls[i := l][1..] == ls[1..][i - 1 := l];
    }
  }

  // ----- the transition system -----

  /** Rate and burst of the server and prefetch count of every limiter; `created` is the
      instant the server was made. */
  datatype Params = Params(rate: int, burst: int, prefetch: int, created: int)

  /** The shared state, with running totals of cost allowed, tokens discarded by Reset and
      tokens granted by the server. */
  datatype State = State(
    now: int, remote: Remote, limiters: seq<Limiter>, gs: seq<Goroutine>,
    allowed: int, discarded: int, granted: int)

  /** Enter: AllowN(n) called on limiter `home`, up to its first unlock. Resume: a woken waiter
      gets the lock back. Ask: the fetcher's RequestTokens. Land: the fetcher's next lock
      region, from relocking to the next unlock. Wipe: Reset. */
  datatype Action =
    | Enter(g: nat, home: nat, n: int)
    | Resume(g: nat)
    | Ask(g: nat)
    | Land(g: nat, stamp: int)
    | Wipe(l: nat)

  /** An action together with the clock reading it makes. */
  datatype Step = Step(act: Action, at: int)

  predicate Enabled(s: State, step: Step) {
    && s.now <= step.at
    && match step.act
       case Enter(g, home, n) => g < |s.gs| && s.gs[g].pc.Outside? && home < |s.limiters|
       case Resume(g) => g < |s.gs| && s.gs[g].pc.Woken? && s.gs[g].home < |s.limiters|
       case Ask(g) => g < |s.gs| && s.gs[g].pc.Fetching? && s.gs[g].home < |s.limiters|
       case Land(g, stamp) => g < |s.gs| && s.gs[g].pc.Fetched? && s.gs[g].home < |s.limiters|
                              && s.now <= stamp <= step.at
       case Wipe(l) => l < |s.limiters|
  }

  /** From the top of the loop to the unlock, for goroutine `g` holding limiter `home`. */
  function Turned(c: Params, s: State, g: nat, home: nat, n: int): State
    requires g < |s.gs| && home < |s.limiters|
  {
    var l := s.limiters[home];
    var turn := Choose(c.prefetch, l, s.now, n);
    var pc := match turn
              case Allow => Outside
              case Reject(_) => Outside
              case Park => Parked(n)
              case Fetch(batch) => Fetching(n, batch);
    s.(limiters := s.limiters[home := Take(l, n, turn)],
       gs := s.gs[g := Goroutine(home, pc)],
       allowed := s.allowed + if turn.Allow? then n else 0)
  }

  /** A woken waiter has the lock back and has left the waiter count. */
  function Resumed(s: State, g: nat): State
    requires g < |s.gs| && s.gs[g].home < |s.limiters|
  {
    var h := s.gs[g].home;
    s.(limiters := s.limiters[h := s.limiters[h].(waiters := s.limiters[h].waiters - 1)],
       gs := s.gs[g := Goroutine(h, Outside)])
  }

  function Asked(c: Params, s: State, g: nat): State
    requires c.rate > 0 && g < |s.gs| && s.gs[g].pc.Fetching?
  {
    var pc := s.gs[g].pc;
    var a := Request(c.rate, s.remote, s.now, pc.batch);
    s.(remote := a.remote, granted := s.granted + a.granted,
       gs := s.gs[g := Goroutine(s.gs[g].home, Fetched(pc.n, a.granted, a.wait))])
  }

  /** The fetcher has stored its answer and broadcast. */
  function Delivered(s: State, g: nat, stamp: int): State
    requires g < |s.gs| && s.gs[g].pc.Fetched? && s.gs[g].home < |s.limiters|
  {
    var h, pc := s.gs[g].home, s.gs[g].pc;
    s.(limiters := s.limiters[h := Landed(s.limiters[h], pc.granted, pc.wait, stamp)],
       gs := WakeAll(s.gs[g := Goroutine(h, Outside)], h))
  }

  function WipedAt(s: State, l: nat): State
    requires l < |s.limiters|
  {
    s.(limiters := s.limiters[l := Wiped(s.limiters[l])], discarded := s.discarded + s.limiters[l].localTokens)
  }

  function Next(c: Params, s: State, step: Step): State
    requires c.rate > 0 && Enabled(s, step)
  {
    var s := s.(now := step.at);
    match step.act
    case Enter(g, home, n) => Turned(c, s, g, home, n)
    case Resume(g) => Turned(c, Resumed(s, g), g, s.gs[g].home, s.gs[g].pc.n)
    case Ask(g) => Asked(c, s, g)
    case Land(g, stamp) => Turned(c, Delivered(s, g, stamp), g, s.gs[g].home, s.gs[g].pc.n)
    case Wipe(l) => WipedAt(s, l)
  }

  /** `m` fresh limiters and `k` goroutines, none of them in AllowN. */
  function Init(c: Params, m: nat, k: nat): State {
    State(c.created, Remote(c.burst * NANO, c.created), seq(m, _ => FRESH), seq(k, _ => Goroutine(0, Outside)), 0, 0, 0)
  }

  /** The state a trace of steps leads to; None if some step is not enabled when its turn comes. */
  function Exec(c: Params, s: State, trace: seq<Step>): Option<State>
    requires c.rate > 0
    decreases |trace|
  {
    if trace == [] then Some(s)
    else if Enabled(s, trace[0]) then Exec(c, Next(c, s, trace[0]), trace[1..])
    else None
  }

  // ----- the invariant -----

  /** Single flight and waiter accounting on limiter `l`. */
  ghost predicate FlightOk(s: State, l: nat)
    requires l < |s.limiters|
  {
    && Count(s.gs, InFetch, l) == (if s.limiters[l].fetching then 1 else 0)
    && Count(s.gs, Waiting, l) == s.limiters[l].waiters
    && (Count(s.gs, Sleeping, l) > 0 ==> s.limiters[l].fetching)
  }

  ghost predicate FlightsOk(s: State) {
    && (forall l :: 0 <= l < |s.limiters| ==> FlightOk(s, l))
    && (forall g :: 0 <= g < |s.gs| && !s.gs[g].pc.Outside? ==> s.gs[g].home < |s.limiters|)
  }

  /** No token is created or lost between the server and the callers. */
  ghost predicate LedgerOk(s: State) {
    && s.allowed + Cached(s.limiters) + InFlight(s.gs) + s.discarded == s.granted
    && (forall l :: 0 <= l < |s.limiters| ==> s.limiters[l].localTokens >= 0)
    && (forall g :: 0 <= g < |s.gs| ==> Carried(s.gs[g]) >= 0)
    && s.discarded >= 0
  }

  /** The largest batch a fetch can ask for: the prefetch count or everyone else waiting. */
  function LargestBatch(c: Params, s: State): int {
    if c.prefetch > |s.gs| - 1 then c.prefetch else |s.gs| - 1
  }

  /** The server's level accounts for every grant, and never falls below one largest batch
      of debt once something was granted. */
  ghost predicate ServerOk(c: Params, s: State) {
    && s.granted * NANO == c.burst * NANO + c.rate * (s.remote.lastRefill - c.created) - s.remote.tokens
    && s.remote.lastRefill <= s.now
    && s.granted >= 0
    && (s.granted > 0 ==> s.remote.tokens >= -LargestBatch(c, s) * NANO)
    && (forall g :: 0 <= g < |s.gs| && s.gs[g].pc.Fetching? ==> 0 <= s.gs[g].pc.batch <= LargestBatch(c, s))
  }

  ghost predicate Inv(c: Params, s: State) {
    FlightsOk(s) && LedgerOk(s) && ServerOk(c, s)
  }
}
