/** The workers of one client sharing an atomic request counter. */
module Budget {
  import opened Common
  import opened Counting

  /** Where a worker is. Top: about to take a number. Ticket: got a number within the budget,
      request not started. Sending: inside Send. Finished: left because the budget was used
      up. Stopped: left because the run was cancelled. */
  datatype Worker = Top | Ticket | Sending | Finished | Stopped

  /** The shared counter, the workers, and how many sends were started. */
  datatype State = State(counter: int, workers: seq<Worker>, sends: int)

  /** Take: add one to the counter and compare. Cancel: the context was done. Start: the
      request goes out. Return: Send came back, with an answer or an error. */
  datatype Action = Take(w: nat) | Cancel(w: nat) | Start(w: nat) | Return(w: nat, failed: bool)

  predicate Enabled(s: State, a: Action) {
    a.w < |s.workers| &&
    match a
    case Take(w) => s.workers[w].Top?
    case Cancel(w) => s.workers[w].Ticket?
    case Start(w) => s.workers[w].Ticket?
    case Return(w, failed) => s.workers[w].Sending?
  }

  function Next(budget: int, s: State, a: Action): State
    requires Enabled(s, a)
  {
    match a
    case Take(w) =>
      s.(counter := s.counter + 1, workers := s.workers[w := if s.counter + 1 > budget then Finished else Ticket])
    case Cancel(w) => s.(workers := s.workers[w := Stopped])
    case Start(w) => s.(workers := s.workers[w := Sending], sends := s.sends + 1)
    case Return(w, failed) => s.(workers := s.workers[w := Top])
  }

  function Init(k: nat): State {
    State(0, seq(k, _ => Top), 0)
  }

  function Exec(budget: int, s: State, trace: seq<Action>): Option<State>
    decreases |trace|
  {
    if trace == [] then Some(s)
    else if Enabled(s, trace[0]) then Exec(budget, Next(budget, s, trace[0]), trace[1..])
    else None
  }

  function At(place: Worker): Worker -> bool { w => w == place }

  function Count(workers: seq<Worker>, place: Worker): nat { CountIf(workers, At(place)) }

  /** Numbers up to the budget went to tickets held, sent or stopped with; the rest each sent
      one worker home. */
  ghost predicate Inv(budget: int, s: State) {
    && s.counter >= 0 && s.sends >= 0
    && s.sends + Count(s.workers, Ticket) + Count(s.workers, Stopped)
       == (if s.counter <= budget then s.counter else budget)
    && Count(s.workers, Finished) == (if s.counter <= budget then 0 else s.counter - budget)
  }

  lemma NextKeepsInv(budget: int, s: State, a: Action)
    requires budget > 0 && Inv(budget, s) && Enabled(s, a)
    ensures Inv(budget, Next(budget, s, a))
  {
    var to := Next(budget, s, a).workers[a.w];
    CountIfUpdate(s.workers, a.w, to, At(Ticket));
    CountIfUpdate(s.workers, a.w, to, At(Stopped));
    CountIfUpdate(s.workers, a.w, to, At(Finished));
  }

  lemma {:induction false} ExecKeepsInv(budget: int, s: State, trace: seq<Action>)
    requires budget > 0 && Inv(budget, s)
    ensures Exec(budget, s, trace).Some? ==>
              Inv(budget, Exec(budget, s, trace).value) && |Exec(budget, s, trace).value.workers| == |s.workers|
    decreases |trace|
  {
    if trace != [] && Enabled(s, trace[0]) {
      NextKeepsInv(budget, s, trace[0]);
      ExecKeepsInv(budget, Next(budget, s, trace[0]), trace[1..]);
    }
  }

  /** No interleaving starts more sends than the budget; and when all `k` workers have left
      because the budget was used up, exactly `budget` sends were started and the counter
      stands at budget + k, whatever mix of answers and errors there was. */
  lemma {:induction false} ExactBudget(budget: int, k: nat, trace: seq<Action>, s: State)
    requires budget > 0 && Exec(budget, Init(k), trace) == Some(s)
    ensures s.sends <= budget
    ensures k > 0 && (forall i :: 0 <= i < |s.workers| ==> s.workers[i] == Finished)
            ==> s.sends == budget && s.counter == budget + k
  {
    CountIfBounds(Init(k).workers, At(Ticket));
    CountIfBounds(Init(k).workers, At(Stopped));
    CountIfBounds(Init(k).workers, At(Finished));
    ExecKeepsInv(budget, Init(k), trace);
    if k > 0 && forall i :: 0 <= i < |s.workers| ==> s.workers[i] == Finished {
      CountIfBounds(s.workers, At(Finished));
      CountIfBounds(s.workers, At(Ticket));
      CountIfBounds(s.workers, At(Stopped));
    }
  }
}
