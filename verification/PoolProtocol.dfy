/** The connection pool used by any number of goroutines, before Close: a transition system
    in which the atomic counter is read and written as in the original, so a failing
    server picker can slip in between another goroutine's check and its wait. */
module PoolProtocol {
  import opened Common
  import opened Counting

  /** "lifo" pops the last idle connection, any other strategy the first. */
  datatype Strategy = Fifo | Lifo

  function Taken<T>(strategy: Strategy, idle: seq<T>): T
    requires idle != []
  {
    if strategy.Lifo? then idle[|idle| - 1] else idle[0]
  }

  function Remaining<T>(strategy: Strategy, idle: seq<T>): seq<T>
    requires idle != []
  {
    if strategy.Lifo? then idle[..|idle| - 1] else idle[1..]
  }

  /** An idle connection, marked with the number of its return to the pool. */
  datatype IdleConn = IdleConn(conn: nat, mark: nat)

  /** Where a goroutine is. Checked: holds the lock in Get and has loaded `seen` from the
      counter. Parked: asleep on globalCond. Woken: signalled, lock not yet regained. Picking:
      slot reserved, lock released, picker running. Failing: picker failed, counter already
      decremented, signal still to come. Holding: Get returned this connection. */
  datatype Pc = Outside | Checked(seen: int) | Parked | Woken | Picking | Failing | Holding(conn: nat)

  datatype Kind = IsChecked | IsParked | IsWoken | IsPicking | IsFailing | IsHolding

  predicate Is(kind: Kind, pc: Pc) {
    match kind
    case IsChecked => pc.Checked?
    case IsParked => pc.Parked?
    case IsWoken => pc.Woken?
    case IsPicking => pc.Picking?
    case IsFailing => pc.Failing?
    case IsHolding => pc.Holding?
  }

  function OfKind(kind: Kind): Pc -> bool { pc => Is(kind, pc) }

  function Count(gs: seq<Pc>, kind: Kind): nat { CountIf(gs, OfKind(kind)) }

  // ----- condition variable -----

  /** Signal may wake any one parked goroutine; it is lost only when none is parked. */
  predicate MayWake(gs: seq<Pc>, w: Option<nat>) {
    match w
    case Some(i) => i < |gs| && gs[i].Parked?
    case None => forall i :: 0 <= i < |gs| ==> !gs[i].Parked?
  }

  function WakeOne(gs: seq<Pc>, w: Option<nat>): seq<Pc>
    requires MayWake(gs, w)
  {
    if w.Some? then gs[w.value := Woken] else gs
  }

  function WakeAll(gs: seq<Pc>): (woken: seq<Pc>)
    ensures |woken| == |gs|
  {
    seq(|gs|, i requires 0 <= i < |gs| => if gs[i].Parked? then Woken else gs[i])
  }

  // ----- the transition system -----

  /** `limit` is maxTotalConnections; not positive means no limit. */
  datatype Params = Params(limit: int, strategy: Strategy)

  /** The pool and its users. `made` names the next connection made, `returned` counts returns
      to the idle list, `raced` counts picker failures that decremented the counter while a
      goroutine was Checked. */
  datatype State = State(total: int, idle: seq<IdleConn>, gs: seq<Pc>, made: nat, returned: nat, raced: nat)

  /** Enter: Get up to its first unlock or counter load. Resume: a woken waiter regains the
      lock and loads the counter. Decide: what the loop does with the loaded value. Picked and
      PickFails: the picker returns. Signal: after a failure. GiveBack: Put; `retire` when the
      connection should close, `wake` whom its signal reaches. */
  datatype Action =
    | Enter(g: nat)
    | Resume(g: nat)
    | Decide(g: nat)
    | Picked(g: nat)
    | PickFails(g: nat)
    | Signal(g: nat, wake: Option<nat>)
    | GiveBack(g: nat, retire: bool, wake: Option<nat>)

  predicate LockFree(s: State) {
    forall i :: 0 <= i < |s.gs| ==> !s.gs[i].Checked?
  }

  predicate Enabled(s: State, a: Action) {
    a.g < |s.gs| &&
    match a
    case Enter(g) => s.gs[g].Outside? && LockFree(s)
    case Resume(g) => s.gs[g].Woken? && LockFree(s)
    case Decide(g) => s.gs[g].Checked?
    case Picked(g) => s.gs[g].Picking?
    case PickFails(g) => s.gs[g].Picking?
    case Signal(g, wake) => s.gs[g].Failing? && MayWake(s.gs, wake)
    case GiveBack(g, retire, wake) => s.gs[g].Holding? && LockFree(s) && (retire ==> MayWake(s.gs, wake))
  }

  function Reuse(c: Params, s: State, g: nat): State
    requires g < |s.gs| && s.idle != []
  {
    s.(idle := Remaining(c.strategy, s.idle), gs := s.gs[g := Holding(Taken(c.strategy, s.idle).conn)])
  }

  function Reserve(s: State, g: nat): State
    requires g < |s.gs|
  {
    s.(total := s.total + 1, gs := s.gs[g := Picking])
  }

  function Next(c: Params, s: State, a: Action): State
    requires Enabled(s, a)
  {
    match a
    case Enter(g) =>
      if s.idle != [] then Reuse(c, s, g)
      else if c.limit <= 0 then Reserve(s, g)
      else s.(gs := s.gs[g := Checked(s.total)])
    case Resume(g) => s.(gs := s.gs[g := Checked(s.total)])
    case Decide(g) =>
      if s.gs[g].seen < c.limit then Reserve(s, g)
      else if s.idle != [] then Reuse(c, s, g)
      else s.(gs := s.gs[g := Parked])
    case Picked(g) => s.(gs := s.gs[g := Holding(s.made)], made := s.made + 1)
    case PickFails(g) =>
      s.(total := s.total - 1, gs := s.gs[g := Failing], raced := s.raced + if LockFree(s) then 0 else 1)
    case Signal(g, wake) => s.(gs := WakeOne(s.gs, wake)[g := Outside])
    case GiveBack(g, retire, wake) =>
      if retire then
        s.(total := s.total - 1, gs := WakeOne(s.gs, wake)[g := Outside])
      else
        s.(idle := s.idle + [IdleConn(s.gs[g].conn, s.returned)], returned := s.returned + 1,
           gs := WakeAll(s.gs)[g := Outside])
  }

  function Init(k: nat): State {
    State(0, [], seq(k, _ => Outside), 0, 0, 0)
  }

  function Exec(c: Params, s: State, trace: seq<Action>): Option<State>
    decreases |trace|
  {
    if trace == [] then Some(s)
    else if Enabled(s, trace[0]) then Exec(c, Next(c, s, trace[0]), trace[1..])
    else None
  }
}
