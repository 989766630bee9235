/** AllowN of a local-cached limiter as an object, called by one goroutine at a time. */
module LocalCachedAlone {
  import opened Common
  import opened RemoteTokens
  import opened LocalCached

  datatype Verdict = Allowed | Denied(retryAfter: int)

  /** The AllowN loop between two turns. `tick` numbers the clock readings made so far. */
  datatype Loop =
    | Looping(l: Limiter, r: Remote, tick: nat)
    | Returned(l: Limiter, r: Remote, verdict: Verdict)

  /** The clock of a call: its i-th reading. */
  type Clock = nat -> int

  /** It never steps back and passes every instant in the end. */
  ghost predicate Advances(clock: Clock) {
    && (forall i: nat, j: nat :: i <= j ==> clock(i) <= clock(j))
    && (forall t: int :: MovesPast(clock, t))
  }

  ghost predicate MovesPast(clock: Clock, t: int) {
    exists j: nat :: clock(j) > t
  }

  ghost function FirstPast(clock: Clock, t: int): (j: nat)
    requires MovesPast(clock, t)
    ensures clock(j) > t
  {
    var j: nat :| clock(j) > t; j
  }

  /** One turn of the loop, with nobody else using the limiter; a call that would wait for
      another one's fetch stays where it is. */
  function LoopTurn(rate: int, prefetch: int, clock: Clock, n: int, p: Loop): (q: Loop)
    requires rate > 0
    ensures q.l.fetching == p.l.fetching && q.l.waiters == p.l.waiters
  {
    if p.Returned? then p
    else
      var turn := Choose(prefetch, p.l, clock(p.tick), n);
      match turn
      case Allow => Returned(Take(p.l, n, turn), p.r, Allowed)
      case Reject(retryAfter) => Returned(p.l, p.r, Denied(retryAfter))
      case Park => p
      case Fetch(batch) =>
        var a := Request(rate, p.r, clock(p.tick + 1), batch);
        Looping(Landed(Take(p.l, n, turn), a.granted, a.wait, clock(p.tick + 2)), a.remote, p.tick + 3)
  }

  function Turns(rate: int, prefetch: int, clock: Clock, n: int, p: Loop, k: nat): Loop
    requires rate > 0
    decreases k
  {
    if k == 0 then p else Turns(rate, prefetch, clock, n, LoopTurn(rate, prefetch, clock, n, p), k - 1)
  }

  lemma {:induction false} LastTurn(rate: int, prefetch: int, clock: Clock, n: int, p: Loop, k: nat)
    requires rate > 0
    ensures Turns(rate, prefetch, clock, n, p, k + 1)
         == LoopTurn(rate, prefetch, clock, n, Turns(rate, prefetch, clock, n, p, k))
    decreases k
  {
    if k > 0 { LastTurn(rate, prefetch, clock, n, LoopTurn(rate, prefetch, clock, n, p), k - 1); }
  }

  /** A state that no turn changes is there to stay. */
  lemma {:induction false} Settled(rate: int, prefetch: int, clock: Clock, n: int, p: Loop, k: nat)
    requires rate > 0 && LoopTurn(rate, prefetch, clock, n, p) == p
    ensures Turns(rate, prefetch, clock, n, p, k) == p
    decreases k
  {
    if k > 0 { Settled(rate, prefetch, clock, n, p, k - 1); }
  }

  /** The call returns after finitely many turns. */
  ghost predicate Terminates(rate: int, prefetch: int, clock: Clock, n: int, p: Loop)
    requires rate > 0
  {
    exists k: nat :: Turns(rate, prefetch, clock, n, p, k).Returned?
  }

  /** A call that has not returned yet terminates exactly when it does so from its next turn. */
  lemma TerminatesAfterTurn(rate: int, prefetch: int, clock: Clock, n: int, p: Loop)
    requires rate > 0 && p.Looping?
    ensures Terminates(rate, prefetch, clock, n, p)
            <==> Terminates(rate, prefetch, clock, n, LoopTurn(rate, prefetch, clock, n, p))
  {
    var q := LoopTurn(rate, prefetch, clock, n, p);
    if k: nat :| Turns(rate, prefetch, clock, n, p, k).Returned? {
      assert Turns(rate, prefetch, clock, n, q, k - 1).Returned?;
    }
    if k: nat :| Turns(rate, prefetch, clock, n, q, k).Returned? {
      assert Turns(rate, prefetch, clock, n, p, k + 1).Returned?;
    }
  }

  /** The call is under way, nobody fetches, `waiters` others wait, and the server was not
      used after now. */
  ghost predicate Ready(clock: Clock, p: Loop) {
    && Advances(clock)
    && p.Looping? && !p.l.fetching && p.l.waiters >= 0
    && p.r.lastRefill <= clock(p.tick)
  }

  // ----- what brings a call closer to its end -----

  function Missing(n: int, p: Loop): nat {
    if p.l.localTokens >= n then 0 else n - p.l.localTokens
  }

  function Debt(p: Loop): nat {
    if p.r.tokens >= 0 then 0 else -p.r.tokens
  }

  /** How many readings the clock may still stand where the server last read it. */
  ghost function Stall(clock: Clock, p: Loop): nat
    requires Ready(clock, p)
  {
    var j := FirstPast(clock, p.r.lastRefill);
    if p.tick >= j then 0 else j - p.tick
  }

  ghost predicate Closer(clock: Clock, n: int, p: Loop, q: Loop)
    requires Ready(clock, p) && Ready(clock, q)
  {
    Missing(n, q) < Missing(n, p)
    || (Missing(n, q) == Missing(n, p)
        && (Debt(q) < Debt(p) || (Debt(q) == Debt(p) && Stall(clock, q) < Stall(clock, p))))
  }

  lemma TimeRefills(rate: int, r: Remote, now: int)
    requires rate > 0 && r.lastRefill <= now
    ensures r.lastRefill < now ==> Refilled(rate, r, now) > r.tokens
    ensures r.lastRefill == now ==> Refilled(rate, r, now) == r.tokens
  {
    if r.lastRefill < now { ProductMonotonic(1, now - r.lastRefill, rate); }
  }

  /** Every turn that does not return brings the call closer: it gets tokens, or the server's
      debt shrinks, or the clock gets nearer to its next move, even when the server answers
      with neither tokens nor a wait. */
  lemma TurnMakesProgress(rate: int, prefetch: int, clock: Clock, n: int, p: Loop)
    requires rate > 0 && Ready(clock, p) && (prefetch >= 1 || p.l.waiters >= 1)
    ensures var q := LoopTurn(rate, prefetch, clock, n, p);
            q.Looping? ==> Ready(clock, q) && Closer(clock, n, p, q)
  {
    var q := LoopTurn(rate, prefetch, clock, n, p);
    if q.Looping? {
      assert p.r.lastRefill <= clock(p.tick + 1) <= clock(p.tick + 3);
      TimeRefills(rate, p.r, clock(p.tick + 1));
    }
  }

  /** The number of turns a call takes. */
  lemma {:induction false} CallReturns(rate: int, prefetch: int, clock: Clock, n: int, p: Loop)
    requires rate > 0 && Ready(clock, p) && (prefetch >= 1 || p.l.waiters >= 1)
    ensures Terminates(rate, prefetch, clock, n, p)
    decreases Missing(n, p), Debt(p), Stall(clock, p)
  {
    var q := LoopTurn(rate, prefetch, clock, n, p);
    if q.Returned? {
      assert Turns(rate, prefetch, clock, n, q, 0) == q;
    } else {
      TurnMakesProgress(rate, prefetch, clock, n, p);
      CallReturns(rate, prefetch, clock, n, q);
    }
    TerminatesAfterTurn(rate, prefetch, clock, n, p);
  }

  /** With nothing to prefetch and nobody waiting, a call that meets a solvent server asks for
      nothing for ever. */
  lemma {:induction false} SpinsForever(rate: int, prefetch: int, clock: Clock, n: int, p: Loop, k: nat)
    requires rate > 0 && prefetch <= 0 && p.l.waiters == 0 && Ready(clock, p)
    requires p.l.localTokens < n && p.l.rejectUntil <= clock(p.tick) && p.r.tokens >= 0
    ensures Turns(rate, prefetch, clock, n, p, k).Looping?
    decreases k
  {
    if k > 0 {
      var q := LoopTurn(rate, prefetch, clock, n, p);
      assert clock(p.tick) <= clock(p.tick + 1) <= clock(p.tick + 3);
      ProductNonNegative(clock(p.tick + 1) - p.r.lastRefill, rate);
      SpinsForever(rate, prefetch, clock, n, q, k - 1);
    }
  }

  /** Which single calls return when there is nothing to fetch and the server is solvent:
      exactly those answered from the cache or inside a rejection period. */
  lemma ReturnsIffAnsweredAtOnce(rate: int, prefetch: int, clock: Clock, n: int, p: Loop)
    requires rate > 0 && prefetch <= 0 && p.l.waiters == 0 && Ready(clock, p) && p.r.tokens >= 0
    ensures Terminates(rate, prefetch, clock, n, p)
            <==> p.l.localTokens >= n || clock(p.tick) < p.l.rejectUntil
  {
    if p.l.localTokens >= n || clock(p.tick) < p.l.rejectUntil {
      assert Turns(rate, prefetch, clock, n, LoopTurn(rate, prefetch, clock, n, p), 0).Returned?;
      TerminatesAfterTurn(rate, prefetch, clock, n, p);
    } else {
      forall k: nat ensures !Turns(rate, prefetch, clock, n, p, k).Returned? {
        SpinsForever(rate, prefetch, clock, n, p, k);
      }
    }
  }

  /** AllowN run alone beside a given number of waiters returns for every cost, from every
      state and with every clock exactly when there is something to fetch: a prefetch count of
      at least one, or a waiter. */
  lemma ReturnsIffFetching(rate: int, prefetch: int, waiters: nat)
    requires rate > 0
    ensures (forall clock: Clock, n: int, p: Loop ::
               Ready(clock, p) && p.l.waiters == waiters ==> Terminates(rate, prefetch, clock, n, p))
            <==> prefetch >= 1 || waiters >= 1
  {
    if prefetch >= 1 || waiters >= 1 {
      forall clock: Clock, n: int, p: Loop | Ready(clock, p) && p.l.waiters == waiters
        ensures Terminates(rate, prefetch, clock, n, p)
      {
        CallReturns(rate, prefetch, clock, n, p);
      }
    } else {
      var clock: Clock := i => i;
      var p := Looping(FRESH, Remote(0, 0), 0);
      forall t: int ensures MovesPast(clock, t) { assert clock(if t < 0 then 0 else t + 1) > t; }
      assert Ready(clock, p);
      ReturnsIffAnsweredAtOnce(rate, prefetch, clock, 1, p);
    }
  }

  /** What a returned call did: the tokens it spent and cached all came from the server; a
      denial happens only inside a rejection period and with too few tokens cached. */
  lemma {:induction false} CallOutcome(rate: int, prefetch: int, clock: Clock, n: int, p: Loop, k: nat)
    requires rate > 0 && p.Looping? && Turns(rate, prefetch, clock, n, p, k).Returned?
    ensures var q := Turns(rate, prefetch, clock, n, p, k);
            var spent := if q.verdict.Allowed? then n else 0;
            (spent + q.l.localTokens - p.l.localTokens) * NANO
              == p.r.tokens + rate * (q.r.lastRefill - p.r.lastRefill) - q.r.tokens
    ensures var q := Turns(rate, prefetch, clock, n, p, k);
            q.verdict.Denied? ==>
              && q.l.localTokens < n && q.verdict.retryAfter > 0
              && exists t: nat :: p.tick <= t && q.l.rejectUntil == clock(t) + q.verdict.retryAfter
    decreases k
  {
    var m := LoopTurn(rate, prefetch, clock, n, p);
    if m.Looping? {
      CallOutcome(rate, prefetch, clock, n, m, k - 1);
      var q := Turns(rate, prefetch, clock, n, m, k - 1);
      if m != p {
        RequestConserves(rate, p.r, clock(p.tick + 1), Choose(prefetch, p.l, clock(p.tick), n).batch);
        assert rate * (m.r.lastRefill - p.r.lastRefill) + rate * (q.r.lastRefill - m.r.lastRefill)
            == rate * (q.r.lastRefill - p.r.lastRefill);
      }
    } else {
      Settled(rate, prefetch, clock, n, m, k - 1);
    }
  }

  /** After `turns` turns from `start` the call is at `p`, and after `last` it has returned. */
  ghost predicate OnTheWay(rate: int, prefetch: int, clock: Clock, n: int, start: Loop, p: Loop, turns: nat, last: nat)
    requires rate > 0 && turns <= last
  {
    && Turns(rate, prefetch, clock, n, start, turns) == p
    && Turns(rate, prefetch, clock, n, p, last - turns).Returned?
  }

  lemma TurnOnTheWay(rate: int, prefetch: int, clock: Clock, n: int, start: Loop, p: Loop, turns: nat, last: nat)
    requires rate > 0 && turns < last && OnTheWay(rate, prefetch, clock, n, start, p, turns, last) && p.Looping?
    ensures var q := LoopTurn(rate, prefetch, clock, n, p);
            q != p && OnTheWay(rate, prefetch, clock, n, start, q, turns + 1, last)
            && (q.Looping? ==> turns + 1 < last)
  {
    LastTurn(rate, prefetch, clock, n, start, turns);
    if LoopTurn(rate, prefetch, clock, n, p) == p {
      Settled(rate, prefetch, clock, n, p, last - turns);
    }
  }

  /** A call covered by the cache, or not covered and inside the rejection period, is answered
      by its first turn, whatever the prefetch count. */
  lemma FirstTurnDecides(rate: int, prefetch: int, clock: Clock, n: int, p: Loop, k: nat)
    requires rate > 0 && p.Looping? && Turns(rate, prefetch, clock, n, p, k).Returned?
    ensures var q := Turns(rate, prefetch, clock, n, p, k);
            && (p.l.localTokens >= n ==> q == Returned(p.l.(localTokens := p.l.localTokens - n), p.r, Allowed))
            && (p.l.localTokens < n && clock(p.tick) < p.l.rejectUntil ==>
                  q == Returned(p.l, p.r, Denied(p.l.rejectUntil - clock(p.tick))))
            && (q.verdict.Denied? ==> q.l.localTokens < n && q.verdict.retryAfter > 0)
  {
    CallOutcome(rate, prefetch, clock, n, p, k);
    var q := LoopTurn(rate, prefetch, clock, n, p);
    if q.Returned? { Settled(rate, prefetch, clock, n, q, k - 1); }
  }

  class LocalCachedLimiter {
    const remote: RemoteTokenServer
    const prefetchCount: int
    var localTokens: int
    var rejectUntil: int
    var fetching: bool
    var waiters: int

    ghost function State(): Limiter
      reads this
    {
      Limiter(localTokens, rejectUntil, fetching, waiters)
    }

    constructor (remote: RemoteTokenServer, prefetch: int)
      ensures this.remote == remote && prefetchCount == prefetch && State() == FRESH
    {
      this.remote := remote;
      prefetchCount := prefetch;
      localTokens, rejectUntil, fetching, waiters := 0, 0, false, 0;
    }

    /** The fetcher's part of the loop: the server reads its clock at `asked`, the limiter
        stamps the answer at `stamp`. */
    method Fetch(asked: int, stamp: int)
      requires remote.rate > 0 && !fetching
      modifies this`localTokens, this`rejectUntil, this`fetching, remote
      ensures var batch := if old(waiters) > prefetchCount then old(waiters) else prefetchCount;
              var a := Request(remote.rate, old(remote.State()), asked, batch);
              && remote.State() == a.remote && State() == Landed(old(State()), a.granted, a.wait, stamp)
              && localTokens == old(localTokens) + a.granted
              && rejectUntil == (if a.wait > 0 then stamp + a.wait else old(rejectUntil))
              && !fetching && waiters == old(waiters)
    {
      fetching := true;
      var batchSize := prefetchCount;
      if waiters > batchSize {
        batchSize := waiters;
      }
      var granted, retryAfter := remote.RequestTokens(batchSize, asked);
      fetching := false;
      localTokens := localTokens + granted;
      if retryAfter > 0 {
        rejectUntil := stamp + retryAfter;
      }
    }

    /** AllowN, asked only that it ends. A call covered by the cache takes its tokens from there;
        one that is not is turned away for the rest of the rejection period if it comes inside
        it; neither asks the server. Any other call goes on as its turns say. */
    method AllowN(n: int, clock: Clock) returns (verdict: Verdict, ghost turns: nat)
      requires remote.rate > 0
      requires Terminates(remote.rate, prefetchCount, clock, n, Looping(State(), remote.State(), 0))
      modifies this, remote
      ensures Turns(remote.rate, prefetchCount, clock, n, Looping(old(State()), old(remote.State()), 0), turns)
           == Returned(State(), remote.State(), verdict)
      ensures old(localTokens) >= n ==>
        verdict.Allowed? && State() == old(State()).(localTokens := old(localTokens) - n)
        && remote.State() == old(remote.State())
      ensures old(localTokens) < n && clock(0) < old(rejectUntil) ==>
        verdict == Denied(old(rejectUntil) - clock(0)) && State() == old(State())
        && remote.State() == old(remote.State())
      ensures verdict.Denied? ==> localTokens < n && verdict.retryAfter > 0
    {
      ghost var start := Looping(State(), remote.State(), 0);
      verdict, turns := RunLoop(n, clock);
      FirstTurnDecides(remote.rate, prefetchCount, clock, n, start, turns);
    }

    /** The loop of the original; the i-th time.Now() of the call reads clock(i). It ends as its
        turns say. */
    method RunLoop(n: int, clock: Clock) returns (verdict: Verdict, ghost turns: nat)
      requires remote.rate > 0
      requires Terminates(remote.rate, prefetchCount, clock, n, Looping(State(), remote.State(), 0))
      modifies this, remote
      ensures Turns(remote.rate, prefetchCount, clock, n, Looping(old(State()), old(remote.State()), 0), turns)
           == Returned(State(), remote.State(), verdict)
    {
      ghost var start := Looping(State(), remote.State(), 0);
      ghost var last: nat :| Turns(remote.rate, prefetchCount, clock, n, start, last).Returned?;
      ghost var p := start;
      var tick: nat := 0;
      turns := 0;
      while true
        invariant p == Looping(State(), remote.State(), tick)
        invariant turns < last && OnTheWay(remote.rate, prefetchCount, clock, n, start, p, turns, last)
        decreases last - turns
      {
        TurnOnTheWay(remote.rate, prefetchCount, clock, n, start, p, turns, last);
        turns, p := turns + 1, LoopTurn(remote.rate, prefetchCount, clock, n, p);
        var now := clock(tick);
        if localTokens >= n {
          localTokens := localTokens - n;
          return Allowed, turns;
        }
        if now < rejectUntil {
          return Denied(rejectUntil - now), turns;
        }
        Fetch(clock(tick + 1), clock(tick + 2));
        tick := tick + 3;
      }
    }

    method Reset()
      modifies this
      ensures State() == Wiped(old(State()))
      ensures localTokens == 0 && rejectUntil == 0 && fetching == old(fetching) && waiters == old(waiters)
    {
      localTokens := 0;
      rejectUntil := 0;
    }
  }
}
