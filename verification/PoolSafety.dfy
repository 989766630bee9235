/** What every interleaving of pool users keeps. */
module PoolSafety {
  import opened Common
  import opened Counting
  import opened PoolProtocol

  /** Slots nobody uses: room below the limit, and idle connections. */
  function FreeSlots(c: Params, s: State): int {
    c.limit - s.total + |s.idle|
  }

  /** Goroutines on their way to a slot or about to signal one. */
  function Claims(s: State): nat {
    Count(s.gs, IsWoken) + Count(s.gs, IsChecked) + Count(s.gs, IsFailing)
  }

  /** The counter is exactly the connections idle, handed out or being made, within the limit. */
  ghost predicate CountsOk(c: Params, s: State) {
    && s.total == |s.idle| + Count(s.gs, IsHolding) + Count(s.gs, IsPicking)
    && (c.limit > 0 ==> s.total <= c.limit)
    && Count(s.gs, IsChecked) <= 1
    && (c.limit <= 0 ==> Count(s.gs, IsChecked) == 0 && Count(s.gs, IsParked) == 0 && Count(s.gs, IsWoken) == 0)
    && (forall g :: 0 <= g < |s.gs| && s.gs[g].Checked? ==>
          s.total <= s.gs[g].seen <= c.limit && s.gs[g].seen - s.total <= s.raced)
  }

  /** If anybody is parked, every free slot has a claim, up to one per raced failure. */
  ghost predicate WakesOk(c: Params, s: State) {
    Count(s.gs, IsParked) > 0 ==> Claims(s) + s.raced >= FreeSlots(c, s)
  }

  lemma CountUpdates(gs: seq<Pc>, i: nat, pc: Pc)
    requires i < |gs|
    ensures forall kind ::
      Count(gs[i := pc], kind) ==
      Count(gs, kind) - (if Is(kind, gs[i]) then 1 else 0) + (if Is(kind, pc) then 1 else 0)
  {
    forall kind { CountIfUpdate(gs, i, pc, OfKind(kind)); }
  }

  lemma SomeCounted(gs: seq<Pc>, g: nat)
    requires g < |gs|
    ensures forall kind :: Is(kind, gs[g]) ==> Count(gs, kind) >= 1
  {
    forall kind { CountIfBounds(gs, OfKind(kind)); }
  }

  lemma LockFreeCounts(s: State)
    ensures LockFree(s) <==> Count(s.gs, IsChecked) == 0
  {
    CountIfBounds(s.gs, OfKind(IsChecked));
    assert LockFree(s) <==> forall i :: 0 <= i < |s.gs| ==> !Is(IsChecked, s.gs[i]);
  }

  lemma WakeOneCounts(gs: seq<Pc>, w: Option<nat>, g: nat)
    requires MayWake(gs, w) && g < |gs| && !gs[g].Parked? && !gs[g].Woken?
    ensures var after := WakeOne(gs, w)[g := Outside];
            (forall kind :: kind != IsParked && kind != IsWoken ==>
               Count(after, kind) == Count(gs, kind) - if Is(kind, gs[g]) then 1 else 0)
            && Count(after, IsParked) == Count(gs, IsParked) - (if w.Some? then 1 else 0)
            && Count(after, IsWoken) == Count(gs, IsWoken) + (if w.Some? then 1 else 0)
            && (w.None? ==> Count(gs, IsParked) == 0)
  {
    var woken := WakeOne(gs, w);
    if w.Some? {
      CountUpdates(gs, w.value, Woken);
    } else {
      CountIfBounds(gs, OfKind(IsParked));
      assert forall i :: 0 <= i < |gs| ==> !Is(IsParked, gs[i]);
    }
    CountUpdates(woken, g, Outside);
  }

  lemma WakeAllCounts(gs: seq<Pc>, g: nat)
    requires g < |gs| && gs[g].Holding?
    ensures var after := WakeAll(gs)[g := Outside];
            (forall kind :: kind != IsParked && kind != IsWoken ==>
               Count(after, kind) == Count(gs, kind) - if Is(kind, gs[g]) then 1 else 0)
            && Count(after, IsParked) == 0
            && (Count(gs, IsParked) == 0 && Count(gs, IsWoken) == 0 ==> Count(after, IsWoken) == 0)
  {
    var woken := WakeAll(gs);
    forall kind | kind != IsParked && kind != IsWoken {
      CountIfSame(woken, gs, OfKind(kind));
    }
    CountIfBounds(woken, OfKind(IsParked));
    assert Count(woken, IsParked) == 0 by {
      assert forall i :: 0 <= i < |woken| ==> !Is(IsParked, woken[i]);
    }
    CountIfBounds(gs, OfKind(IsParked));
    CountIfBounds(gs, OfKind(IsWoken));
    CountIfBounds(woken, OfKind(IsWoken));
    if Count(gs, IsParked) == 0 && Count(gs, IsWoken) == 0 {
      forall i | 0 <= i < |woken| ensures !Is(IsWoken, woken[i]) {
        assert !Is(IsParked, gs[i]) && !Is(IsWoken, gs[i]);
      }
    }
    CountUpdates(woken, g, Outside);
  }

  // ----- one step -----

  lemma EnterKeeps(c: Params, s: State, a: Action)
    requires CountsOk(c, s) && WakesOk(c, s) && Enabled(s, a) && (a.Enter? || a.Resume?)
    ensures CountsOk(c, Next(c, s, a)) && WakesOk(c, Next(c, s, a))
  {
    LockFreeCounts(s);
    SomeCounted(s.gs, a.g);
    CountUpdates(s.gs, a.g, Next(c, s, a).gs[a.g]);
  }

  lemma DecideKeeps(c: Params, s: State, a: Action)
    requires CountsOk(c, s) && WakesOk(c, s) && Enabled(s, a) && a.Decide?
    ensures CountsOk(c, Next(c, s, a)) && WakesOk(c, Next(c, s, a))
  {
    var t := Next(c, s, a);
    SomeCounted(s.gs, a.g);
    CountUpdates(s.gs, a.g, t.gs[a.g]);
    LockFreeCounts(t);
  }

  lemma PickedKeeps(c: Params, s: State, a: Action)
    requires CountsOk(c, s) && WakesOk(c, s) && Enabled(s, a) && (a.Picked? || a.PickFails?)
    ensures CountsOk(c, Next(c, s, a)) && WakesOk(c, Next(c, s, a))
  {
    SomeCounted(s.gs, a.g);
    CountUpdates(s.gs, a.g, Next(c, s, a).gs[a.g]);
  }

  lemma SignalKeeps(c: Params, s: State, a: Action)
    requires CountsOk(c, s) && WakesOk(c, s) && Enabled(s, a) && (a.Signal? || (a.GiveBack? && a.retire))
    ensures CountsOk(c, Next(c, s, a)) && WakesOk(c, Next(c, s, a))
  {
    SomeCounted(s.gs, a.g);
    WakeOneCounts(s.gs, a.wake, a.g);
    if a.wake.Some? { SomeCounted(s.gs, a.wake.value); }
  }

  lemma ReturnKeeps(c: Params, s: State, a: Action)
    requires CountsOk(c, s) && WakesOk(c, s) && Enabled(s, a) && a.GiveBack? && !a.retire
    ensures CountsOk(c, Next(c, s, a)) && WakesOk(c, Next(c, s, a))
  {
    SomeCounted(s.gs, a.g);
    WakeAllCounts(s.gs, a.g);
  }

  lemma NextKeeps(c: Params, s: State, a: Action)
    requires CountsOk(c, s) && WakesOk(c, s) && Enabled(s, a)
    ensures CountsOk(c, Next(c, s, a)) && WakesOk(c, Next(c, s, a))
  {
    match a
    case Enter(_) => EnterKeeps(c, s, a);
    case Resume(_) => EnterKeeps(c, s, a);
    case Decide(_) => DecideKeeps(c, s, a);
    case Picked(_) => PickedKeeps(c, s, a);
    case PickFails(_) => PickedKeeps(c, s, a);
    case Signal(_, _) => SignalKeeps(c, s, a);
    case GiveBack(_, retire, _) => if retire { SignalKeeps(c, s, a); } else { ReturnKeeps(c, s, a); }
  }

  // ----- ownership and order of reuse -----

  /** Every connection is idle at most once or held by at most one caller, never both; idle
      connections are in the order of their return. */
  ghost predicate OwnersOk(s: State) { IdleOk(s) && HeldOk(s) }

  ghost predicate IdleOk(s: State) {
    && (forall i :: 0 <= i < |s.idle| ==> s.idle[i].conn < s.made && s.idle[i].mark < s.returned)
    && (forall i, j :: 0 <= i < j < |s.idle| ==> s.idle[i].conn != s.idle[j].conn && s.idle[i].mark < s.idle[j].mark)
  }

  ghost predicate HeldOk(s: State) {
    && (forall g :: 0 <= g < |s.gs| && s.gs[g].Holding? ==> s.gs[g].conn < s.made)
    && (forall g, i :: 0 <= g < |s.gs| && s.gs[g].Holding? && 0 <= i < |s.idle| ==> s.gs[g].conn != s.idle[i].conn)
    && (forall g, h :: 0 <= g < h < |s.gs| && s.gs[g].Holding? && s.gs[h].Holding? ==> s.gs[g].conn != s.gs[h].conn)
  }

  lemma ReuseKeepsOwners(c: Params, s: State, g: nat)
    requires OwnersOk(s) && g < |s.gs| && s.idle != []
    ensures OwnersOk(Reuse(c, s, g))
  {
    var t := Reuse(c, s, g);
    var d := if c.strategy.Lifo? then 0 else 1;
    var taken := if c.strategy.Lifo? then |s.idle| - 1 else 0;
    assert t.idle == s.idle[d..d + |s.idle| - 1] && t.gs == s.gs[g := Holding(s.idle[taken].conn)];
    assert IdleOk(t);
    assert HeldOk(t) by {
      forall h, i | 0 <= h < |t.gs| && t.gs[h].Holding? && 0 <= i < |t.idle| ensures t.gs[h].conn != t.idle[i].conn {
        assert t.idle[i] == s.idle[i + d];
        if h != g { assert t.gs[h] == s.gs[h]; }
      }
    }
  }

  lemma ReturnKeepsOwners(c: Params, s: State, a: Action)
    requires OwnersOk(s) && Enabled(s, a) && a.GiveBack?
    ensures OwnersOk(Next(c, s, a))
  {
    var t := Next(c, s, a);
    assert forall g :: 0 <= g < |t.gs| && t.gs[g].Holding? ==> g != a.g && t.gs[g] == s.gs[g];
  }

  lemma OtherKeepsOwners(c: Params, s: State, a: Action)
    requires OwnersOk(s) && Enabled(s, a) && !a.GiveBack? && Next(c, s, a).idle == s.idle
    ensures OwnersOk(Next(c, s, a))
  {
    var t := Next(c, s, a);
    assert forall g :: 0 <= g < |t.gs| && t.gs[g].Holding? && g != a.g ==> t.gs[g] == s.gs[g];
    assert t.gs[a.g].Holding? ==> t.gs[a.g].conn == s.made && t.made == s.made + 1;
    assert IdleOk(t);
  }

  lemma NextKeepsOwners(c: Params, s: State, a: Action)
    requires OwnersOk(s) && Enabled(s, a)
    ensures OwnersOk(Next(c, s, a))
  {
    if a.GiveBack? {
      ReturnKeepsOwners(c, s, a);
    } else if Next(c, s, a).idle == s.idle {
      OtherKeepsOwners(c, s, a);
    } else {
      ReuseKeepsOwners(c, s, a.g);
    }
  }

  /** How a goroutine gets on in Get: an idle connection first, if it finds one when it comes in;
      without a limit, or below it, a slot; at the limit an idle connection after all, or sleep. */
  lemma GetsOn(c: Params, s: State, a: Action)
    requires Enabled(s, a) && (a.Enter? || a.Decide?)
    ensures var t, pc := Next(c, s, a), Next(c, s, a).gs[a.g];
            var full := a.Decide? && s.gs[a.g].seen >= c.limit;
            && (pc.Holding? ==> s.idle != [] && t.total == s.total && |t.idle| == |s.idle| - 1)
            && (pc.Picking? ==> t.total == s.total + 1 && t.idle == s.idle)
            && (a.Enter? && s.idle != [] ==> pc.Holding?)
            && (a.Enter? && s.idle == [] ==> if c.limit > 0 then pc == Checked(s.total) else pc.Picking?)
            && (a.Decide? && !full ==> pc.Picking?)
            && (full ==> if s.idle != [] then pc.Holding? else pc.Parked?)
  {
  }

  // ----- every reachable state -----

  lemma {:induction false} ExecKeeps(c: Params, s: State, trace: seq<Action>)
    requires CountsOk(c, s) && WakesOk(c, s) && OwnersOk(s)
    ensures Exec(c, s, trace).Some? ==>
              var t := Exec(c, s, trace).value; CountsOk(c, t) && WakesOk(c, t) && OwnersOk(t)
    decreases |trace|
  {
    if trace != [] && Enabled(s, trace[0]) {
      NextKeeps(c, s, trace[0]);
      NextKeepsOwners(c, s, trace[0]);
      ExecKeeps(c, Next(c, s, trace[0]), trace[1..]);
    }
  }

  lemma InitOk(c: Params, k: nat)
    ensures CountsOk(c, Init(k)) && WakesOk(c, Init(k)) && OwnersOk(Init(k))
  {
    forall kind { CountIfBounds(Init(k).gs, OfKind(kind)); }
  }

  /** Conservation and cap: in every interleaving the counter equals idle plus checked-out
      connections plus reservations whose picker is still running, and it never exceeds a
      positive limit; failing pickers included. */
  lemma {:induction false} PoolIsConserved(c: Params, k: nat, trace: seq<Action>, s: State)
    requires Exec(c, Init(k), trace) == Some(s)
    ensures s.total == |s.idle| + Count(s.gs, IsHolding) + Count(s.gs, IsPicking)
    ensures c.limit > 0 ==> s.total <= c.limit
  {
    InitOk(c, k);
    ExecKeeps(c, Init(k), trace);
  }

  /** Ownership: no connection is idle twice, held by two callers, or both idle and held. */
  lemma {:induction false} OneOwner(c: Params, k: nat, trace: seq<Action>, s: State)
    requires Exec(c, Init(k), trace) == Some(s)
    ensures forall i, j :: 0 <= i < j < |s.idle| ==> s.idle[i].conn != s.idle[j].conn
    ensures forall g, h :: 0 <= g < h < |s.gs| && s.gs[g].Holding? && s.gs[h].Holding? ==> s.gs[g].conn != s.gs[h].conn
    ensures forall g, i :: 0 <= g < |s.gs| && s.gs[g].Holding? && 0 <= i < |s.idle| ==> s.gs[g].conn != s.idle[i].conn
  {
    InitOk(c, k);
    ExecKeeps(c, Init(k), trace);
  }

  /** Order of reuse: whenever a step hands out an idle connection, fifo hands out the one
      that came back longest ago, lifo the one that came back last. */
  lemma {:induction false} ReuseOrder(c: Params, k: nat, trace: seq<Action>, s: State, a: Action)
    requires Exec(c, Init(k), trace) == Some(s) && Enabled(s, a) && |Next(c, s, a).idle| < |s.idle|
    ensures Next(c, s, a).gs[a.g].Holding?
    ensures exists e :: e in s.idle && e.conn == Next(c, s, a).gs[a.g].conn
              && forall other :: other in Next(c, s, a).idle ==>
                   if c.strategy.Lifo? then other.mark < e.mark else e.mark < other.mark
  {
    InitOk(c, k);
    ExecKeeps(c, Init(k), trace);
    var e := Taken(c.strategy, s.idle);
    assert e in s.idle;
  }

  /** No waiter sleeps on an unclaimed slot: with a positive limit, if anybody is parked, then
      the goroutines already woken, checking or about to signal are at least as many as the
      free slots, minus one for each picker failure that decremented the counter between
      another goroutine's check and its wait. */
  lemma {:induction false} FreeSlotsAreClaimed(c: Params, k: nat, trace: seq<Action>, s: State)
    requires Exec(c, Init(k), trace) == Some(s) && Count(s.gs, IsParked) > 0
    ensures c.limit > 0
    ensures Claims(s) + s.raced >= c.limit - s.total + |s.idle|
  {
    InitOk(c, k);
    ExecKeeps(c, Init(k), trace);
  }

  ghost predicate NoPickFails(trace: seq<Action>) {
    forall i :: 0 <= i < |trace| ==> !trace[i].PickFails?
  }

  lemma NoFailureNoRace(c: Params, s: State, a: Action)
    requires Enabled(s, a) && !a.PickFails?
    ensures Next(c, s, a).raced == s.raced
    ensures Count(s.gs, IsFailing) == 0 ==> Count(Next(c, s, a).gs, IsFailing) == 0
  {
    CountIfBounds(s.gs, OfKind(IsFailing));
    CountIfBounds(Next(c, s, a).gs, OfKind(IsFailing));
  }

  lemma {:induction false} NoFailuresNoRaces(c: Params, s: State, trace: seq<Action>)
    requires NoPickFails(trace) && Exec(c, s, trace).Some?
    ensures Exec(c, s, trace).value.raced == s.raced
    ensures Count(s.gs, IsFailing) == 0 ==> Count(Exec(c, s, trace).value.gs, IsFailing) == 0
    decreases |trace|
  {
    if trace != [] {
      NoFailureNoRace(c, s, trace[0]);
      NoFailuresNoRaces(c, Next(c, s, trace[0]), trace[1..]);
    }
  }

  /** With a picker that always succeeds, whenever the lock is free: if anybody is parked, the
      goroutines woken and not yet resumed are at least as many as the free slots. */
  lemma {:induction false} NoSleeperOnAFreeSlot(c: Params, k: nat, trace: seq<Action>, s: State)
    requires Exec(c, Init(k), trace) == Some(s) && NoPickFails(trace)
    requires LockFree(s) && Count(s.gs, IsParked) > 0
    ensures Count(s.gs, IsWoken) >= c.limit - s.total + |s.idle|
  {
    FreeSlotsAreClaimed(c, k, trace, s);
    NoFailuresNoRaces(c, Init(k), trace);
    CountIfBounds(Init(k).gs, OfKind(IsFailing));
    LockFreeCounts(s);
  }

  // ----- the exact condition for pickers that may fail -----

  /** Whoever sleeps, every free slot has a claim. */
  ghost predicate SleepersAreCovered(c: Params, s: State) {
    Count(s.gs, IsParked) > 0 ==> Claims(s) >= FreeSlots(c, s)
  }

  /** Nobody waits for a slot, and nobody checking will have to. */
  ghost predicate NobodyWaits(c: Params, s: State) {
    forall g :: 0 <= g < |s.gs| ==>
      !s.gs[g].Parked? && !s.gs[g].Woken? && (s.gs[g].Checked? ==> s.gs[g].seen < c.limit)
  }

  lemma NextKeepsRoom(c: Params, s: State, a: Action)
    requires CountsOk(c, s) && NobodyWaits(c, s) && |s.gs| <= c.limit && Enabled(s, a)
    ensures NobodyWaits(c, Next(c, s, a)) && |Next(c, s, a).gs| == |s.gs|
  {
    if a.Enter? && s.idle == [] {
      CountIfNeither(s.gs, OfKind(IsHolding), OfKind(IsPicking), a.g);
    }
  }

  lemma {:induction false} RoomForAll(c: Params, s: State, trace: seq<Action>)
    requires CountsOk(c, s) && WakesOk(c, s) && NobodyWaits(c, s) && |s.gs| <= c.limit
    ensures Exec(c, s, trace).Some? ==> NobodyWaits(c, Exec(c, s, trace).value)
    decreases |trace|
  {
    if trace != [] && Enabled(s, trace[0]) {
      NextKeeps(c, s, trace[0]);
      NextKeepsRoom(c, s, trace[0]);
      RoomForAll(c, Next(c, s, trace[0]), trace[1..]);
    }
  }

  lemma {:induction false} ExecAppend(c: Params, s: State, trace: seq<Action>, a: Action)
    requires Exec(c, s, trace).Some? && Enabled(Exec(c, s, trace).value, a)
    ensures Exec(c, s, trace + [a]) == Some(Next(c, Exec(c, s, trace).value, a))
    decreases |trace|
  {
    if trace == [] {
      assert Exec(c, Next(c, s, a), []) == Some(Next(c, s, a));
    } else {
      ExecAppend(c, Next(c, s, trace[0]), trace[1..], a);
      assert (trace + [a])[1..] == trace[1..] + [a];
    }
  }

  /** The first `j` of `k` goroutines have reserved a slot each; the others are outside. */
  function Filled(j: nat, k: nat): State {
    State(j, [], seq(k, i => if i < j then Picking else Outside), 0, 0, 0)
  }

  lemma {:induction false} FillSlots(c: Params, j: nat, k: nat) returns (trace: seq<Action>)
    requires j <= c.limit && j <= k
    ensures Exec(c, Init(k), trace) == Some(Filled(j, k))
  {
    if j == 0 {
      trace := [];
      assert Init(k) == Filled(0, k);
    } else {
      trace := FillSlots(c, j - 1, k);
      var s := Filled(j - 1, k);
      var t := Next(c, s, Enter(j - 1));
      ExecAppend(c, Init(k), trace, Enter(j - 1));
      ExecAppend(c, Init(k), trace + [Enter(j - 1)], Decide(j - 1));
      assert Next(c, t, Decide(j - 1)) == Filled(j, k);
      trace := trace + [Enter(j - 1)] + [Decide(j - 1)];
    }
  }

  /** The failing run, for every positive limit and any number of users above it: the slots
      are filled, one more goroutine finds the pool full, the first picker fails, frees its
      slot and signals nobody; only then does the late goroutine go to sleep, on a free slot
      that nobody will tell it of. */
  lemma {:induction false} PickerFailureCanLoseAWakeUp(c: Params, k: nat) returns (trace: seq<Action>, s: State)
    requires 1 <= c.limit < k
    ensures Exec(c, Init(k), trace) == Some(s)
    ensures |s.gs| == k && s.gs[c.limit].Parked? && Claims(s) == 0 && FreeSlots(c, s) == 1
  {
    var late := c.limit;
    var start := FillSlots(c, late, k);
    var s0 := Filled(late, k);
    var s1 := s0.(gs := s0.gs[late := Checked(late)]);
    var s2 := s1.(total := late - 1, gs := s1.gs[0 := Failing], raced := 1);
    var s3 := s2.(gs := s2.gs[0 := Outside]);
    s := s3.(gs := s3.gs[late := Parked]);
    assert !LockFree(s1) by { assert s1.gs[late].Checked?; }
    ExecAppend(c, Init(k), start, Enter(late));
    ExecAppend(c, Init(k), start + [Enter(late)], PickFails(0));
    ExecAppend(c, Init(k), start + [Enter(late)] + [PickFails(0)], Signal(0, None));
    ExecAppend(c, Init(k), start + [Enter(late)] + [PickFails(0)] + [Signal(0, None)], Decide(late));
    trace := start + [Enter(late)] + [PickFails(0)] + [Signal(0, None)] + [Decide(late)];
    NobodyOnTheWay(s.gs);
  }

  lemma NobodyOnTheWay(gs: seq<Pc>)
    requires forall g :: 0 <= g < |gs| ==> gs[g].Outside? || gs[g].Picking? || gs[g].Parked?
    ensures Count(gs, IsWoken) == Count(gs, IsChecked) == Count(gs, IsFailing) == 0
  {
    CountIfBounds(gs, OfKind(IsWoken));
    CountIfBounds(gs, OfKind(IsChecked));
    CountIfBounds(gs, OfKind(IsFailing));
  }

  /** With pickers that may fail, no interleaving leaves a sleeper on an unclaimed slot exactly
      when there is no limit or the limit has room for every user of the pool. */
  lemma {:induction false} SleepersCoveredIffRoomForAll(c: Params, k: nat)
    ensures (forall trace, s :: Exec(c, Init(k), trace) == Some(s) ==> SleepersAreCovered(c, s))
            <==> c.limit <= 0 || k <= c.limit
  {
    if c.limit <= 0 || k <= c.limit {
      InitOk(c, k);
      forall trace, s | Exec(c, Init(k), trace) == Some(s) ensures SleepersAreCovered(c, s) {
        ExecKeeps(c, Init(k), trace);
        if c.limit > 0 {
          RoomForAll(c, Init(k), trace);
          CountIfBounds(s.gs, OfKind(IsParked));
        }
      }
    } else {
      var trace, s := PickerFailureCanLoseAWakeUp(c, k);
      CountIfBounds(s.gs, OfKind(IsParked));
      assert OfKind(IsParked)(s.gs[c.limit]);
      assert !SleepersAreCovered(c, s);
    }
  }
}
