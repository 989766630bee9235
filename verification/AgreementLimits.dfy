/** Exactly which request limits keep client and server in agreement. */
module AgreementLimits {
  import opened Common
  import opened Servers
  import opened Agreement

  /** One server, one connection in use after `k` answered requests. */
  function Worn(k: nat): State {
    State([Conn(0, k, k, 0, Held)], [if k == 0 then EMPTY else Table(map[0 := k], 1, 1, 0)])
  }

  lemma {:induction false} ExecAppend(m: Limits, s: State, first: seq<Action>, second: seq<Action>)
    requires Exec(m, s, first).Some?
    ensures Exec(m, s, first + second) == Exec(m, Exec(m, s, first).value, second)
    decreases |first|
  {
    if first == [] {
      assert first + second == second;
    } else {
      ExecAppend(m, Next(m, s, first[0]), first[1..], second);
      assert (first + second)[1..] == first[1..] + second;
    }
  }

  lemma ExecOne(m: Limits, s: State, t: State, a: Action, rest: seq<Action>)
    requires Enabled(s, a) && Next(m, s, a) == t
    ensures Exec(m, s, [a] + rest) == Exec(m, t, rest)
  {
    assert ([a] + rest)[1..] == rest;
  }

  /** A request up to the moment the server has counted it. */
  lemma RequestHandled(m: Limits, k: nat)
    ensures Exec(m, Worn(k), [Send(0), Handle(0)])
         == Some(State([Conn(0, k + 1, k + 1, 0, Handled(k + 1 >= m.server))], [Table(map[0 := k + 1], 1, 1, 0)]))
  {
    var s := Worn(k);
    var s1 := State([Conn(0, k + 1, k, 0, Sent)], s.tables);
    var s2 := State([Conn(0, k + 1, k + 1, 0, Handled(k + 1 >= m.server))], [Table(map[0 := k + 1], 1, 1, 0)]);
    assert Next(m, s, Send(0)) == s1;
    assert Counted(s.tables[0], 0) == s2.tables[0];
    assert Next(m, s1, Handle(0)) == s2;
    ExecOne(m, s1, s2, Handle(0), []);
    ExecOne(m, s, s1, Send(0), [Handle(0)]);
    assert [Send(0)] + [Handle(0)] == [Send(0), Handle(0)] && [Handle(0)] + [] == [Handle(0)];
  }

  /** The rest of the request: below the server's limit its entry stays, at the limit it goes,
      while the pool, looking at the client's count only, keeps the connection. */
  lemma RequestSettled(m: Limits, k: nat)
    requires k < m.client
    ensures var full := k >= m.server;
            var table := Table(map[0 := k], 1, 1, 0);
            Exec(m, State([Conn(0, k, k, 0, Handled(full))], [table]), [Reply(0), Settle(0, Pooled)]) ==
              Some(State([Conn(0, k, k, 0, Idle)], [if full then Dropped(table, 0) else table]))
  {
    var full := k >= m.server;
    var table := Table(map[0 := k], 1, 1, 0);
    var s := State([Conn(0, k, k, 0, Handled(full))], [table]);
    var tables := [if full then Dropped(table, 0) else table];
    var s1 := State([Conn(0, k, k, 0, Answered(full))], tables);
    var s2 := State([Conn(0, k, k, 0, Idle)], tables);
    assert Next(m, s, Reply(0)) == s1;
    assert Next(m, s1, Settle(0, Pooled)) == s2;
    ExecOne(m, s1, s2, Settle(0, Pooled), []);
    ExecOne(m, s, s1, Reply(0), [Settle(0, Pooled)]);
    assert [Reply(0)] + [Settle(0, Pooled)] == [Reply(0), Settle(0, Pooled)];
    assert [Settle(0, Pooled)] + [] == [Settle(0, Pooled)];
  }

  /** One request by a pool user, up to the connection's return to the pool. */
  lemma OneRequest(m: Limits, k: nat) returns (request: seq<Action>)
    requires k + 1 < m.client
    ensures var table := Table(map[0 := k + 1], 1, 1, 0);
            Exec(m, Worn(k), request) ==
              Some(State([Conn(0, k + 1, k + 1, 0, Idle)], [if k + 1 >= m.server then Dropped(table, 0) else table]))
  {
    RequestHandled(m, k);
    RequestSettled(m, k + 1);
    request := [Send(0), Handle(0)] + [Reply(0), Settle(0, Pooled)];
    ExecAppend(m, Worn(k), [Send(0), Handle(0)], [Reply(0), Settle(0, Pooled)]);
  }

  /** One request and the connection's next checkout. */
  lemma OneRound(m: Limits, k: nat) returns (round: seq<Action>)
    requires k + 1 < m.server < m.client
    ensures Exec(m, Worn(k), round) == Some(Worn(k + 1))
  {
    var request := OneRequest(m, k);
    var idle := State([Conn(0, k + 1, k + 1, 0, Idle)], [Table(map[0 := k + 1], 1, 1, 0)]);
    assert Next(m, idle, Checkout(0)) == Worn(k + 1);
    ExecOne(m, idle, Worn(k + 1), Checkout(0), []);
    assert [Checkout(0)] + [] == [Checkout(0)];
    ExecAppend(m, Worn(k), request, [Checkout(0)]);
    round := request + [Checkout(0)];
  }

  /** Requests can be repeated on one connection until the server's limit. */
  lemma {:induction false} WearDown(m: Limits, k: nat) returns (trace: seq<Action>)
    requires k < m.server < m.client
    ensures Exec(m, Init(1), trace) == Some(Worn(k))
    decreases k
  {
    if k == 0 {
      trace := [Open(0)];
      assert Init(1) == State([], [EMPTY]);
      assert Next(m, Init(1), Open(0)) == Worn(0);
      ExecOne(m, Init(1), Worn(0), Open(0), []);
      assert [Open(0)] + [] == trace;
    } else {
      var before := WearDown(m, k - 1);
      var round := OneRound(m, k - 1);
      ExecAppend(m, Init(1), before, round);
      trace := before + round;
    }
  }

  /** The pool holds a connection after `k` requests that its server has dropped. */
  function Dangling(k: nat): State {
    State([Conn(0, k, k, 0, Idle)], [Dropped(Table(map[0 := k], 1, 1, 0), 0)])
  }

  lemma DanglingIsReached(m: Limits) returns (trace: seq<Action>)
    requires 1 <= m.server < m.client
    ensures Exec(m, Init(1), trace) == Some(Dangling(m.server))
  {
    var before := WearDown(m, m.server - 1);
    var request := OneRequest(m, m.server - 1);
    ExecAppend(m, Init(1), before, request);
    trace := before + request;
  }

  /** With a lower limit on the server, the pool can hold an idle connection the server has
      already dropped: the next request on it would be counted from zero again. */
  lemma LowServerLimitDisagrees(m: Limits) returns (s: State)
    requires 1 <= m.server < m.client
    ensures Reachable(m, 1, s) && |s.conns| == 1 && !Agrees(s, 0)
    ensures s.conns[0].place == Idle && s.conns[0].count == m.server
    ensures s.conns[0].server < |s.tables| && ServerCount(s, 0) == 0
  {
    var trace := DanglingIsReached(m);
    s := Dangling(m.server);
  }

  /** Client and server agree about every resting connection in every interleaving exactly when
      the client's request limit is not above the server's; the simulator sets them equal. */
  lemma AgreementIffLimitsFit(m: Limits)
    requires m.client >= 1 && m.server >= 1
    ensures (forall servers: nat, s, id: ConnId :: Reachable(m, servers, s) && id < |s.conns| ==> Agrees(s, id))
            <==> m.client <= m.server
  {
    if m.client <= m.server {
      forall servers: nat, s, id: ConnId | Reachable(m, servers, s) && id < |s.conns| ensures Agrees(s, id) {
        CountsAgree(m, servers, s, id);
      }
    } else {
      var s := LowServerLimitDisagrees(m);
    }
  }
}
