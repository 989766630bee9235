/** What every interleaving of the local-cached limiters keeps. */
module LocalCachedSafety {
  import opened Common
  import opened Counting
  import opened RemoteTokens
  import opened LocalCached

  // ----- single flight and waiters -----

  lemma CountUpdates(gs: seq<Goroutine>, i: nat, g: Goroutine, l: nat)
    requires i < |gs|
    ensures forall kind ::
      Count(gs[i := g], kind, l) ==
      Count(gs, kind, l) - (if Is(kind, gs[i], l) then 1 else 0) + (if Is(kind, g, l) then 1 else 0)
  {
    forall kind {
      CountIfUpdate(gs, i, g, OfKind(kind, l));
    }
  }

  lemma TurnedKeepsFlights(c: Params, s: State, g: nat, home: nat, n: int)
    requires FlightsOk(s) && g < |s.gs| && s.gs[g].pc.Outside? && home < |s.limiters|
    ensures FlightsOk(Turned(c, s, g, home, n))
  {
    var t := Turned(c, s, g, home, n);
    forall l | 0 <= l < |t.limiters| ensures FlightOk(t, l) {
      assert FlightOk(s, l);
      CountUpdates(s.gs, g, t.gs[g], l);
    }
  }

  lemma ResumedKeepsFlights(s: State, g: nat)
    requires FlightsOk(s) && g < |s.gs| && s.gs[g].pc.Woken?
    ensures s.gs[g].home < |s.limiters| && FlightsOk(Resumed(s, g))
  {
    var t := Resumed(s, g);
    forall l | 0 <= l < |t.limiters| ensures FlightOk(t, l) {
      assert FlightOk(s, l);
      CountUpdates(s.gs, g, t.gs[g], l);
    }
  }

  lemma AskedKeepsFlights(c: Params, s: State, g: nat)
    requires c.rate > 0 && FlightsOk(s) && g < |s.gs| && s.gs[g].pc.Fetching?
    ensures FlightsOk(Asked(c, s, g))
  {
    var t := Asked(c, s, g);
    forall l | 0 <= l < |t.limiters| ensures FlightOk(t, l) {
      assert FlightOk(s, l);
      CountUpdates(s.gs, g, t.gs[g], l);
    }
  }

  /** Broadcast moves every sleeper of `h` to woken and touches nobody else. */
  lemma BroadcastCounts(gs: seq<Goroutine>, h: nat, l: nat)
    ensures Count(WakeAll(gs, h), Waiting, l) == Count(gs, Waiting, l)
    ensures Count(WakeAll(gs, h), InFetch, l) == Count(gs, InFetch, l)
    ensures Count(WakeAll(gs, h), Sleeping, l) == if l == h then 0 else Count(gs, Sleeping, l)
    ensures InFlight(WakeAll(gs, h)) == InFlight(gs)
  {
    var woken := WakeAll(gs, h);
    CountIfSame(woken, gs, OfKind(Waiting, l));
    CountIfSame(woken, gs, OfKind(InFetch, l));
    if l == h {
      CountIfBounds(woken, OfKind(Sleeping, l));
    } else {
      CountIfSame(woken, gs, OfKind(Sleeping, l));
    }
    InFlightSame(woken, gs);
  }

  lemma DeliveredKeepsFlights(s: State, g: nat, stamp: int)
    requires FlightsOk(s) && g < |s.gs| && s.gs[g].pc.Fetched?
    ensures s.gs[g].home < |s.limiters| && FlightsOk(Delivered(s, g, stamp))
    ensures Count(Delivered(s, g, stamp).gs, Sleeping, s.gs[g].home) == 0
  {
    var t, h := Delivered(s, g, stamp), s.gs[g].home;
    var left := s.gs[g := Goroutine(h, Outside)];
    BroadcastCounts(left, h, h);
    forall l | 0 <= l < |t.limiters| ensures FlightOk(t, l) {
      assert FlightOk(s, l);
      CountUpdates(s.gs, g, Goroutine(h, Outside), l);
      BroadcastCounts(left, h, l);
    }
  }

  lemma LaterKeepsFlights(s: State, at: int)
    requires FlightsOk(s)
    ensures FlightsOk(s.(now := at))
  {
    forall l | 0 <= l < |s.limiters| ensures FlightOk(s.(now := at), l) { assert FlightOk(s, l); }
  }

  lemma NextKeepsFlights(c: Params, s: State, step: Step)
    requires c.rate > 0 && FlightsOk(s) && Enabled(s, step)
    ensures FlightsOk(Next(c, s, step))
  {
    var u := s.(now := step.at);
    LaterKeepsFlights(s, step.at);
    match step.act
    case Enter(g, home, n) => TurnedKeepsFlights(c, u, g, home, n);
    case Resume(g) =>
      ResumedKeepsFlights(u, g);
      TurnedKeepsFlights(c, Resumed(u, g), g, s.gs[g].home, s.gs[g].pc.n);
    case Ask(g) => AskedKeepsFlights(c, u, g);
    case Land(g, stamp) =>
      DeliveredKeepsFlights(u, g, stamp);
      TurnedKeepsFlights(c, Delivered(u, g, stamp), g, s.gs[g].home, s.gs[g].pc.n);
    case Wipe(l) =>
      var t := WipedAt(u, l);
      forall k | 0 <= k < |t.limiters| ensures FlightOk(t, k) { assert FlightOk(u, k); }
  }

  // ----- the ledger -----

  lemma TurnedKeepsLedger(c: Params, s: State, g: nat, home: nat, n: int)
    requires LedgerOk(s) && g < |s.gs| && s.gs[g].pc.Outside? && home < |s.limiters|
    ensures LedgerOk(Turned(c, s, g, home, n))
  {
    var t := Turned(c, s, g, home, n);
    CachedUpdate(s.limiters, home, t.limiters[home]);
    InFlightUpdate(s.gs, g, t.gs[g]);
  }

  lemma ResumedKeepsLedger(s: State, g: nat)
    requires LedgerOk(s) && g < |s.gs| && s.gs[g].pc.Woken? && s.gs[g].home < |s.limiters|
    ensures LedgerOk(Resumed(s, g))
  {
    var t, h := Resumed(s, g), s.gs[g].home;
    CachedUpdate(s.limiters, h, t.limiters[h]);
    InFlightUpdate(s.gs, g, t.gs[g]);
  }

  lemma AskedKeepsLedger(c: Params, s: State, g: nat)
    requires c.rate > 0 && LedgerOk(s) && ServerOk(c, s) && g < |s.gs| && s.gs[g].pc.Fetching?
    ensures LedgerOk(Asked(c, s, g))
  {
    InFlightUpdate(s.gs, g, Asked(c, s, g).gs[g]);
  }

  lemma DeliveredKeepsLedger(s: State, g: nat, stamp: int)
    requires LedgerOk(s) && g < |s.gs| && s.gs[g].pc.Fetched? && s.gs[g].home < |s.limiters|
    ensures LedgerOk(Delivered(s, g, stamp))
  {
    var t, h := Delivered(s, g, stamp), s.gs[g].home;
    assert Carried(s.gs[g]) >= 0;
    CachedUpdate(s.limiters, h, t.limiters[h]);
    InFlightUpdate(s.gs, g, Goroutine(h, Outside));
    BroadcastCounts(s.gs[g := Goroutine(h, Outside)], h, h);
  }

  lemma {:induction false} NextKeepsLedger(c: Params, s: State, step: Step)
    requires c.rate > 0 && LedgerOk(s) && ServerOk(c, s) && Enabled(s, step)
    ensures LedgerOk(Next(c, s, step))
  {
    var u := s.(now := step.at);
    match step.act
    case Enter(g, home, n) => TurnedKeepsLedger(c, u, g, home, n);
    case Resume(g) =>
      ResumedKeepsLedger(u, g);
      TurnedKeepsLedger(c, Resumed(u, g), g, s.gs[g].home, s.gs[g].pc.n);
    case Ask(g) => AskedKeepsLedger(c, u, g);
    case Land(g, stamp) =>
      DeliveredKeepsLedger(u, g, stamp);
      TurnedKeepsLedger(c, Delivered(u, g, stamp), g, s.gs[g].home, s.gs[g].pc.n);
    case Wipe(l) => CachedUpdate(u.limiters, l, WipedAt(u, l).limiters[l]);
  }

  // ----- the server -----

  lemma TurnedKeepsServer(c: Params, s: State, g: nat, home: nat, n: int)
    requires FlightsOk(s) && ServerOk(c, s) && g < |s.gs| && s.gs[g].pc.Outside? && home < |s.limiters|
    ensures ServerOk(c, Turned(c, s, g, home, n))
  {
    assert FlightOk(s, home);
    CountIfBounds(s.gs, OfKind(Waiting, home));
    assert !Is(Waiting, s.gs[g], home);
  }

  lemma AskedKeepsServer(c: Params, s: State, g: nat)
    requires c.rate > 0 && ServerOk(c, s) && g < |s.gs| && s.gs[g].pc.Fetching?
    ensures ServerOk(c, Asked(c, s, g))
  {
    var t, batch := Asked(c, s, g), s.gs[g].pc.batch;
    RequestConserves(c.rate, s.remote, s.now, batch);
    ProductNonNegative(s.now - s.remote.lastRefill, c.rate);
    assert c.rate * (s.remote.lastRefill - c.created) + c.rate * (s.now - s.remote.lastRefill)
        == c.rate * (t.remote.lastRefill - c.created);
  }

  lemma NextKeepsServer(c: Params, s: State, step: Step)
    requires c.rate > 0 && FlightsOk(s) && ServerOk(c, s) && Enabled(s, step)
    ensures ServerOk(c, Next(c, s, step))
  {
    var u := s.(now := step.at);
    LaterKeepsFlights(s, step.at);
    match step.act
    case Enter(g, home, n) => TurnedKeepsServer(c, u, g, home, n);
    case Resume(g) =>
      ResumedKeepsFlights(u, g);
      TurnedKeepsServer(c, Resumed(u, g), g, s.gs[g].home, s.gs[g].pc.n);
    case Ask(g) => AskedKeepsServer(c, u, g);
    case Land(g, stamp) =>
      DeliveredKeepsFlights(u, g, stamp);
      TurnedKeepsServer(c, Delivered(u, g, stamp), g, s.gs[g].home, s.gs[g].pc.n);
    case Wipe(l) =>
  }

  // ----- every reachable state -----

  lemma {:induction false} FreshCounts(m: nat, k: nat)
    ensures Cached(seq(m, _ => FRESH)) == 0
    ensures InFlight(seq(k, _ => Goroutine(0, Outside))) == 0
  {
    if m > 0 {
      FreshCounts(m - 1, 0);
      assert seq(m, _ => FRESH)[1..] == seq(m - 1, _ => FRESH);
    }
    if k > 0 {
      FreshCounts(0, k - 1);
      assert seq(k, _ => Goroutine(0, Outside))[1..] == seq(k - 1, _ => Goroutine(0, Outside));
    }
  }

  lemma InitInv(c: Params, m: nat, k: nat)
    ensures Inv(c, Init(c, m, k))
  {
    var s := Init(c, m, k);
    FreshCounts(m, k);
    forall l | 0 <= l < m ensures FlightOk(s, l) {
      forall kind { CountIfBounds(s.gs, OfKind(kind, l)); }
    }
  }

  lemma {:induction false} ExecKeepsInv(c: Params, s: State, trace: seq<Step>)
    requires c.rate > 0 && Inv(c, s)
    ensures Exec(c, s, trace).Some? ==> Inv(c, Exec(c, s, trace).value)
    ensures Exec(c, s, trace).Some? ==> |Exec(c, s, trace).value.gs| == |s.gs|
    decreases |trace|
  {
    if trace != [] && Enabled(s, trace[0]) {
      NextKeepsFlights(c, s, trace[0]);
      NextKeepsLedger(c, s, trace[0]);
      NextKeepsServer(c, s, trace[0]);
      ExecKeepsInv(c, Next(c, s, trace[0]), trace[1..]);
    }
  }

  /** Conservation: in every reachable state, cost allowed, tokens cached, grants in flight
      and tokens discarded by Reset add up to the tokens the server granted. */
  lemma {:induction false} TokensAreConserved(c: Params, m: nat, k: nat, trace: seq<Step>, s: State)
    requires c.rate > 0 && Exec(c, Init(c, m, k), trace) == Some(s)
    ensures s.allowed + Cached(s.limiters) + InFlight(s.gs) + s.discarded == s.granted
    ensures forall l :: 0 <= l < |s.limiters| ==> s.limiters[l].localTokens >= 0
  {
    InitInv(c, m, k);
    ExecKeepsInv(c, Init(c, m, k), trace);
  }

  lemma {:induction false} SumsNonNegative(ls: seq<Limiter>, gs: seq<Goroutine>)
    requires forall l :: 0 <= l < |ls| ==> ls[l].localTokens >= 0
    requires forall g :: 0 <= g < |gs| ==> Carried(gs[g]) >= 0
    ensures Cached(ls) >= 0 && InFlight(gs) >= 0
    decreases |ls| + |gs|
  {
    if ls != [] { SumsNonNegative(ls[1..], gs); }
    if gs != [] { SumsNonNegative(ls, gs[1..]); }
  }

  lemma GrantsAreBounded(c: Params, s: State)
    requires c.rate > 0 && ServerOk(c, s)
    ensures s.granted == 0
            || s.granted * NANO <= c.burst * NANO + c.rate * (s.now - c.created) + LargestBatch(c, s) * NANO
  {
    ProductMonotonic(s.remote.lastRefill - c.created, s.now - c.created, c.rate);
  }

  /** Global admission bound: whatever the number of limiters and goroutines and however they
      interleave, the cost ever allowed is at most the burst, plus the refill since the server
      was made, plus one largest batch (max of prefetch and goroutines - 1), or is nothing. */
  lemma {:induction false} GlobalAdmissionBound(c: Params, m: nat, k: nat, trace: seq<Step>, s: State)
    requires c.rate > 0 && Exec(c, Init(c, m, k), trace) == Some(s)
    ensures s.allowed <= s.granted
    ensures s.granted == 0
            || s.granted * NANO <= c.burst * NANO + c.rate * (s.now - c.created)
                                   + (if c.prefetch > k - 1 then c.prefetch else k - 1) * NANO
  {
    InitInv(c, m, k);
    ExecKeepsInv(c, Init(c, m, k), trace);
    SumsNonNegative(s.limiters, s.gs);
    GrantsAreBounded(c, s);
  }

  lemma {:induction false} ExecAppend(c: Params, s: State, trace: seq<Step>, step: Step)
    requires c.rate > 0 && Exec(c, s, trace).Some? && Enabled(Exec(c, s, trace).value, step)
    ensures Exec(c, s, trace + [step]) == Some(Next(c, Exec(c, s, trace).value, step))
    decreases |trace|
  {
    if trace == [] {
      assert Exec(c, Next(c, s, step), []) == Some(Next(c, s, step));
    } else {
      ExecAppend(c, Next(c, s, trace[0]), trace[1..], step);
      assert (trace + [step])[1..] == trace[1..] + [step];
    }
  }

  /** The first of `k` goroutines fetches `burst` tokens for a call that needs one more, and
      the next `i - 1` sleep until it is back. */
  function Crowd(c: Params, i: nat, k: nat): State {
    var n := c.burst + 1;
    State(c.created, Remote(c.burst * NANO, c.created), [Limiter(0, 0, true, if i > 0 then i - 1 else 0)],
          seq(k, j => Goroutine(0, if j == 0 then Fetching(n, c.burst) else if j < i then Parked(n) else Outside)),
          0, 0, 0)
  }

  lemma {:induction false} Gather(c: Params, i: nat, k: nat) returns (trace: seq<Step>)
    requires c.rate > 0 && c.created >= 0 && 1 <= i <= k
    requires c.burst == if c.prefetch > 0 then c.prefetch else 0
    ensures Exec(c, Init(c, 1, k), trace) == Some(Crowd(c, i, k))
  {
    var enter := Step(Enter(i - 1, 0, c.burst + 1), c.created);
    if i == 1 {
      trace := [enter];
      ExecAppend(c, Init(c, 1, k), [], enter);
      assert Next(c, Init(c, 1, k), enter) == Crowd(c, 1, k);
    } else {
      trace := Gather(c, i - 1, k);
      ExecAppend(c, Init(c, 1, k), trace, enter);
      assert Next(c, Crowd(c, i - 1, k), enter) == Crowd(c, i, k);
      trace := trace + [enter];
    }
  }

  /** The crowd's fetcher gets its answer, empties the server and fetches again for everyone. */
  lemma FetchAgain(c: Params, k: nat, ask: Step, land: Step) returns (s1: State, s2: State, s3: State)
    requires c.rate > 0 && c.created >= 0 && k >= 1
    requires c.burst == if c.prefetch > 0 then c.prefetch else 0
    requires ask == Step(Ask(0), c.created) && land == Step(Land(0, c.created), c.created)
    ensures Enabled(Crowd(c, k, k), ask) && Next(c, Crowd(c, k, k), ask) == s1
    ensures Enabled(s1, land) && Next(c, s1, land) == s2
    ensures Enabled(s2, ask) && Next(c, s2, ask) == s3
    ensures s3.now == c.created && s3.granted == c.burst + if c.prefetch > k - 1 then c.prefetch else k - 1
  {
    s1 := Next(c, Crowd(c, k, k), ask);
    assert s1.gs[0] == Goroutine(0, Fetched(c.burst + 1, c.burst, 0)) && s1.remote == Remote(0, c.created);
    var d := Delivered(s1, 0, c.created);
    assert d.limiters[0] == Limiter(c.burst, 0, false, k - 1) && d.gs[0].pc.Outside?;
    s2 := Turned(c, d, 0, 0, c.burst + 1);
    assert s2.gs[0] == Goroutine(0, Fetching(c.burst + 1, if c.prefetch > k - 1 then c.prefetch else k - 1));
    s3 := Asked(c, s2, 0);
  }

  /** The bound is reached, whatever the rate, the prefetch count and the number of goroutines:
      with the burst equal to the prefetch count (none if that is not positive), a first fetch
      empties the server to the last token while all others come to wait; the fetcher needs
      one token more and, the others still counted as waiting, draws one largest batch. */
  lemma {:induction false} AdmissionBoundIsReached(c: Params, k: nat) returns (trace: seq<Step>, s: State)
    requires c.rate > 0 && c.created >= 0 && k >= 1
    requires c.burst == if c.prefetch > 0 then c.prefetch else 0
    ensures Exec(c, Init(c, 1, k), trace) == Some(s) && s.now == c.created
    ensures s.granted * NANO
         == c.burst * NANO + c.rate * (s.now - c.created) + (if c.prefetch > k - 1 then c.prefetch else k - 1) * NANO
  {
    var ask, land := Step(Ask(0), c.created), Step(Land(0, c.created), c.created);
    trace := Gather(c, k, k);
    var s1, s2, s3 := FetchAgain(c, k, ask, land);
    ExecAppend(c, Init(c, 1, k), trace, ask);
    ExecAppend(c, Init(c, 1, k), trace + [ask], land);
    ExecAppend(c, Init(c, 1, k), trace + [ask] + [land], ask);
    trace, s := trace + [ask] + [land] + [ask], s3;
  }

  /** Single flight: in every reachable state a limiter is marked as fetching exactly when some
      goroutine is in its fetch section, and then only one is; its waiter count is the
      goroutines parked or woken and not yet resumed; and nobody is parked without a fetch
      in flight. */
  lemma {:induction false} SingleFlight(c: Params, m: nat, k: nat, trace: seq<Step>, s: State, l: nat)
    requires c.rate > 0 && Exec(c, Init(c, m, k), trace) == Some(s) && l < |s.limiters|
    ensures s.limiters[l].fetching <==> exists f :: 0 <= f < |s.gs| && Is(InFetch, s.gs[f], l)
    ensures forall f, f' :: 0 <= f < f' < |s.gs| && Is(InFetch, s.gs[f], l) ==> !Is(InFetch, s.gs[f'], l)
    ensures s.limiters[l].waiters == Count(s.gs, Waiting, l)
    ensures (exists g :: 0 <= g < |s.gs| && Is(Sleeping, s.gs[g], l)) ==> s.limiters[l].fetching
  {
    InitInv(c, m, k);
    ExecKeepsInv(c, Init(c, m, k), trace);
    assert FlightOk(s, l);
    CountIfBounds(s.gs, OfKind(InFetch, l));
    CountIfBounds(s.gs, OfKind(Sleeping, l));
    forall f, f' | 0 <= f < f' < |s.gs| && Is(InFetch, s.gs[f], l) ensures !Is(InFetch, s.gs[f'], l) {
      if Is(InFetch, s.gs[f'], l) { CountIfTwo(s.gs, OfKind(InFetch, l), f, f'); }
    }
  }

  // ----- no lost wake-ups -----

  /** One step: a parked goroutine stays parked, with the same fetcher at work, unless that
      fetcher's answer lands, and then it is woken. */
  lemma ParkedStep(c: Params, s: State, step: Step, g: nat, f: nat)
    requires c.rate > 0 && FlightsOk(s) && Enabled(s, step) && g < |s.gs| && f < |s.gs|
    requires s.gs[g].pc.Parked? && Is(InFetch, s.gs[f], s.gs[g].home)
    ensures step.act.Land? && step.act.g == f ==> Next(c, s, step).gs[g] == s.gs[g].(pc := Woken(s.gs[g].pc.n))
    ensures !(step.act.Land? && step.act.g == f)
            ==> Next(c, s, step).gs[g] == s.gs[g] && Is(InFetch, Next(c, s, step).gs[f], s.gs[g].home)
  {
    var h := s.gs[g].home;
    if step.act.Land? && step.act.g != f && s.gs[step.act.g].home == h {
      assert FlightOk(s, h);
      if step.act.g < f { CountIfTwo(s.gs, OfKind(InFetch, h), step.act.g, f); }
      if f < step.act.g { CountIfTwo(s.gs, OfKind(InFetch, h), f, step.act.g); }
    }
  }

  ghost predicate Lands(step: Step, f: nat) { step.act.Land? && step.act.g == f }

  /** No wake-up is lost: along any continuation of any run, a parked goroutine stays parked
      only while the goroutine that was fetching when it was parked is still in its fetch, and
      the step in which that fetch lands wakes it. */
  lemma {:induction false} NoLostWakeUp(c: Params, s: State, trace: seq<Step>, s': State, g: nat, f: nat)
    requires c.rate > 0 && FlightsOk(s) && g < |s.gs| && f < |s.gs| && Exec(c, s, trace) == Some(s')
    requires s.gs[g].pc.Parked? && Is(InFetch, s.gs[f], s.gs[g].home)
    requires forall i :: 0 <= i < |trace| - 1 ==> !Lands(trace[i], f)
    ensures |s'.gs| == |s.gs|
    ensures trace == [] || !Lands(trace[|trace| - 1], f)
            ==> s'.gs[g] == s.gs[g] && Is(InFetch, s'.gs[f], s.gs[g].home)
    ensures trace != [] && Lands(trace[|trace| - 1], f)
            ==> s'.gs[g] == s.gs[g].(pc := Woken(s.gs[g].pc.n))
    decreases |trace|
  {
    if trace != [] {
      var next := Next(c, s, trace[0]);
      ParkedStep(c, s, trace[0], g, f);
      NextKeepsFlights(c, s, trace[0]);
      if |trace| == 1 {
        assert trace[1..] == [];
      } else {
        assert !Lands(trace[0], f);
        forall i | 0 <= i < |trace[1..]| - 1 ensures !Lands(trace[1..][i], f) {
          assert !Lands(trace[i + 1], f);
        }
        NoLostWakeUp(c, next, trace[1..], s', g, f);
      }
    }
  }

  /** That fetch wakes every goroutine parked on its limiter, and the fetcher itself does not
      park: after its lock region nobody on the limiter is parked. */
  lemma LandingWakesEveryone(c: Params, s: State, g: nat, stamp: int, at: int)
    requires c.rate > 0 && FlightsOk(s) && Enabled(s, Step(Land(g, stamp), at))
    ensures Count(Next(c, s, Step(Land(g, stamp), at)).gs, Sleeping, s.gs[g].home) == 0
  {
    var u := s.(now := at);
    LaterKeepsFlights(s, at);
    DeliveredKeepsFlights(u, g, stamp);
    var d, h := Delivered(u, g, stamp), s.gs[g].home;
    CountUpdates(d.gs, g, Turned(c, d, g, h, s.gs[g].pc.n).gs[g], h);
  }

  /** No reachable state is stuck: while some goroutine is inside AllowN of a limiter, one of
      that limiter's goroutines can take a step now. */
  lemma {:induction false} NeverStuck(c: Params, m: nat, k: nat, trace: seq<Step>, s: State, g: nat)
    requires c.rate > 0 && Exec(c, Init(c, m, k), trace) == Some(s)
    requires g < |s.gs| && !s.gs[g].pc.Outside?
    ensures exists act, f: nat ::
              (act == Resume(f) || act == Ask(f) || act == Land(f, s.now))
              && f < |s.gs| && s.gs[f].home == s.gs[g].home && Enabled(s, Step(act, s.now))
  {
    InitInv(c, m, k);
    ExecKeepsInv(c, Init(c, m, k), trace);
    var f := g;
    if s.gs[g].pc.Parked? {
      var h := s.gs[g].home;
      assert FlightOk(s, h);
      CountIfBounds(s.gs, OfKind(Sleeping, h));
      assert Is(Sleeping, s.gs[g], h);
      CountIfBounds(s.gs, OfKind(InFetch, h));
      f :| 0 <= f < |s.gs| && Is(InFetch, s.gs[f], h);
    }
    var act := if s.gs[f].pc.Woken? then Resume(f) else if s.gs[f].pc.Fetching? then Ask(f) else Land(f, s.now);
    assert Enabled(s, Step(act, s.now));
  }
}
