/** What one turn of a local-cached limiter's loop does, and how its rejection period is honoured
    in every interleaving. */
module LocalCachedBackOff {
  import opened Common
  import opened Counting
  import opened RemoteTokens
  import opened LocalCached
  import opened LocalCachedSafety

  /** The four ways a turn can go: served from the cache; rejected inside the rejection period,
      with nothing changed; asleep behind a running fetch; or fetching for the prefetch count
      or everybody waiting, whichever is more. Nothing else changes. */
  lemma TurnOutcome(c: Params, s: State, g: nat, home: nat, n: int)
    requires g < |s.gs| && home < |s.limiters|
    ensures var l, t := s.limiters[home], Turned(c, s, g, home, n);
            && t.now == s.now && t.remote == s.remote && t.discarded == s.discarded && t.granted == s.granted
            && t.gs == s.gs[g := t.gs[g]] && t.gs[g].home == home && t.limiters == s.limiters[home := t.limiters[home]]
            && if l.localTokens >= n then
                 t.gs[g].pc.Outside? && t.allowed == s.allowed + n
                 && t.limiters[home] == l.(localTokens := l.localTokens - n)
               else if s.now < l.rejectUntil then
                 t.gs[g].pc.Outside? && t.allowed == s.allowed && t.limiters[home] == l
               else if l.fetching then
                 t.gs[g].pc == Parked(n) && t.limiters[home] == l.(waiters := l.waiters + 1)
               else
                 t.limiters[home] == l.(fetching := true)
                 && t.gs[g].pc.Fetching? && t.gs[g].pc.n == n && t.allowed == s.allowed
                 && t.gs[g].pc.batch >= c.prefetch && t.gs[g].pc.batch >= l.waiters
                 && t.gs[g].pc.batch in {c.prefetch, l.waiters}
  {
  }

  /** A landing answer adds its tokens; one with a wait starts a rejection period that ends that
      long after the fetcher's clock reading, any other leaves the period as it was. */
  lemma LandingIsStored(c: Params, s: State, g: nat, stamp: int, at: int)
    requires c.rate > 0 && Enabled(s, Step(Land(g, stamp), at))
    ensures var h, pc, t := s.gs[g].home, s.gs[g].pc, Next(c, s, Step(Land(g, stamp), at));
            && t.limiters[h].rejectUntil == (if pc.wait > 0 then stamp + pc.wait else s.limiters[h].rejectUntil)
            && t.limiters[h].localTokens + (t.allowed - s.allowed) == s.limiters[h].localTokens + pc.granted
  {
  }

  /** Reset ends the rejection period: whoever then asks for tokens waits or fetches. */
  lemma ResetEndsBackOff(c: Params, s: State, l: nat, at: int, g: nat, n: int, later: int)
    requires c.rate > 0 && Enabled(s, Step(Wipe(l), at)) && n > 0
    requires later >= 0 && Enabled(Next(c, s, Step(Wipe(l), at)), Step(Enter(g, l, n), later))
    ensures var t := Next(c, Next(c, s, Step(Wipe(l), at)), Step(Enter(g, l, n), later));
            t.gs[g].pc.Parked? || t.gs[g].pc.Fetching?
  {
  }

  /** A caller that needs more than is cached is turned away inside the rejection period,
      whether it comes in or wakes up, and the server is not asked. */
  lemma TurnedAwayInside(c: Params, s: State, step: Step, l: nat, n: int)
    requires c.rate > 0 && Enabled(s, step) && l < |s.limiters|
    requires (step.act.Enter? && step.act.home == l && step.act.n == n)
             || (step.act.Resume? && s.gs[step.act.g].home == l && s.gs[step.act.g].pc == Woken(n))
    requires s.limiters[l].localTokens < n && step.at < s.limiters[l].rejectUntil
    ensures var t := Next(c, s, step);
            && t.gs[step.act.g].pc.Outside? && t.allowed == s.allowed && t.granted == s.granted && t.remote == s.remote
            && t.limiters[l].localTokens == s.limiters[l].localTokens
            && t.limiters[l].rejectUntil == s.limiters[l].rejectUntil
            && t.limiters[l].fetching == s.limiters[l].fetching
  {
  }

  // ----- along any continuation -----

  /** Limiter `l` rejects until that instant and has no fetch under way. */
  ghost predicate BackingOff(s: State, l: nat, until: int) {
    && FlightsOk(s) && l < |s.limiters|
    && s.limiters[l].rejectUntil == until && !s.limiters[l].fetching
  }

  /** A step inside the rejection period, other than a Reset of this limiter. */
  ghost predicate Inside(step: Step, l: nat, until: int) {
    step.at < until && step.act != Wipe(l)
  }

  ghost predicate AllInside(trace: seq<Step>, l: nat, until: int) {
    forall i :: 0 <= i < |trace| ==> Inside(trace[i], l, until)
  }

  lemma NobodyFetches(s: State, l: nat, until: int, g: nat)
    requires BackingOff(s, l, until) && g < |s.gs|
    ensures !Is(InFetch, s.gs[g], l) && !Is(Sleeping, s.gs[g], l)
  {
    assert FlightOk(s, l);
    CountIfBounds(s.gs, OfKind(InFetch, l));
    CountIfBounds(s.gs, OfKind(Sleeping, l));
    assert OfKind(InFetch, l)(s.gs[g]) == Is(InFetch, s.gs[g], l);
    assert OfKind(Sleeping, l)(s.gs[g]) == Is(Sleeping, s.gs[g], l);
  }

  lemma StepHonoursBackOff(c: Params, s: State, step: Step, l: nat, until: int)
    requires c.rate > 0 && BackingOff(s, l, until) && Enabled(s, step) && Inside(step, l, until)
    ensures BackingOff(Next(c, s, step), l, until)
  {
    NextKeepsFlights(c, s, step);
    if !step.act.Wipe? { NobodyFetches(s, l, until, step.act.g); }
  }

  lemma {:induction false} RunHonoursBackOff(c: Params, s: State, trace: seq<Step>, l: nat, until: int)
    requires c.rate > 0 && BackingOff(s, l, until) && Exec(c, s, trace).Some?
    requires AllInside(trace, l, until)
    ensures BackingOff(Exec(c, s, trace).value, l, until)
    decreases |trace|
  {
    if trace != [] {
      assert Inside(trace[0], l, until);
      StepHonoursBackOff(c, s, trace[0], l, until);
      RunHonoursBackOff(c, Next(c, s, trace[0]), trace[1..], l, until);
    }
  }

  /** The rejection period is honoured by everybody: after an answer with a wait has landed on a
      limiter, and as long as neither its period has ended nor a Reset has come, nobody fetches
      or sleeps on that limiter and the period stands, however the goroutines interleave. */
  lemma {:induction false} BackOffIsHonoured(c: Params, m: nat, k: nat, trace: seq<Step>, s: State,
                                             g: nat, stamp: int, at: int, rest: seq<Step>)
    requires c.rate > 0 && Exec(c, Init(c, m, k), trace) == Some(s) && Enabled(s, Step(Land(g, stamp), at))
    ensures var l, until := s.gs[g].home, stamp + s.gs[g].pc.wait;
            var end := Exec(c, Next(c, s, Step(Land(g, stamp), at)), rest);
            s.gs[g].pc.wait > 0 && at < until && AllInside(rest, l, until) && end.Some? ==>
              && l < |end.value.limiters| && end.value.limiters[l].rejectUntil == until
              && !end.value.limiters[l].fetching
              && forall f :: 0 <= f < |end.value.gs| && end.value.gs[f].home == l ==>
                   end.value.gs[f].pc.Outside? || end.value.gs[f].pc.Woken?
  {
    var l, until := s.gs[g].home, stamp + s.gs[g].pc.wait;
    var landed := Next(c, s, Step(Land(g, stamp), at));
    var end := Exec(c, landed, rest);
    if s.gs[g].pc.wait > 0 && at < until && AllInside(rest, l, until) && end.Some? {
      InitInv(c, m, k);
      ExecKeepsInv(c, Init(c, m, k), trace);
      LandingStartsBackOff(c, s, g, stamp, at);
      RunHonoursBackOff(c, landed, rest, l, until);
      forall f | 0 <= f < |end.value.gs| && end.value.gs[f].home == l
        ensures end.value.gs[f].pc.Outside? || end.value.gs[f].pc.Woken?
      {
        NobodyFetches(end.value, l, until, f);
      }
    }
  }

  lemma LandingStartsBackOff(c: Params, s: State, g: nat, stamp: int, at: int)
    requires c.rate > 0 && FlightsOk(s) && Enabled(s, Step(Land(g, stamp), at))
    requires s.gs[g].pc.wait > 0 && at < stamp + s.gs[g].pc.wait
    ensures BackingOff(Next(c, s, Step(Land(g, stamp), at)), s.gs[g].home, stamp + s.gs[g].pc.wait)
  {
    NextKeepsFlights(c, s, Step(Land(g, stamp), at));
    LandingIsStored(c, s, g, stamp, at);
  }
}
