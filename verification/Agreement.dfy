/** The life of client connections against the servers' tables, with any number of
    connections in any phase of a request at once. */
module Agreement {
  import opened Common
  import opened Servers

  /** Where a connection is. Idle: in the pool. Held: with a caller, between requests. Sent:
      counted by the client, not yet by the server. Handled: counted by the server, `full`
      when that reached the server's limit. Answered: the transport is done. Errored: the
      server was not there. Closing: marked closed by the client, server not yet told. */
  datatype Place = Idle | Held | Sent | Handled(full: bool) | Answered(full: bool) | Errored | Closing | Gone

  /** A client connection, with the number of its requests handled and failed so far. */
  datatype Conn = Conn(server: nat, count: int, handled: int, failed: int, place: Place)

  /** Request limits per connection on either side. */
  datatype Limits = Limits(client: int, server: int)

  datatype State = State(conns: seq<Conn>, tables: seq<Table>)

  /** Who settles a connection after a request: the pool (reuse, and most of hybrid), a
      one-shot caller (per-request, and the rest of hybrid), or a dedicated worker. */
  datatype Mode = Pooled | OneShot | Dedicated

  /** Open: a new connection to a server. Checkout: Pool.Get reuses it. Send: Connection.Send
      counts. Handle and Fail: the server does or does not answer. Reply: the transport closes
      the entry of a full connection. Settle: the client keeps or closes it. Abandon: its
      resting owner closes it, a worker that exits or the pool that is closed. Forget: the
      server learns of the close. */
  datatype Action =
    | Open(server: nat)
    | Checkout(id: ConnId)
    | Send(id: ConnId)
    | Handle(id: ConnId)
    | Fail(id: ConnId)
    | Reply(id: ConnId)
    | Settle(id: ConnId, mode: Mode)
    | Abandon(id: ConnId)
    | Forget(id: ConnId)

  predicate Enabled(s: State, a: Action) {
    match a
    case Open(server) => server < |s.tables|
    case Checkout(id) => id < |s.conns| && s.conns[id].place == Idle
    case Send(id) => id < |s.conns| && s.conns[id].place == Held
    case Handle(id) => id < |s.conns| && s.conns[id].place == Sent && s.conns[id].server < |s.tables|
    case Fail(id) => id < |s.conns| && s.conns[id].place == Sent
    case Reply(id) => id < |s.conns| && s.conns[id].place.Handled? && s.conns[id].server < |s.tables|
    case Settle(id, mode) => id < |s.conns| && (s.conns[id].place.Answered? || s.conns[id].place == Errored)
    case Abandon(id) => id < |s.conns| && s.conns[id].place in {Idle, Held}
    case Forget(id) => id < |s.conns| && s.conns[id].place == Closing && s.conns[id].server < |s.tables|
  }

  /** Whether the client closes a connection after a request: the pool looks at its own count
      only, a one-shot caller always closes, a dedicated worker also follows the response
      and closes on an error. */
  predicate Closes(m: Limits, x: Conn, mode: Mode) {
    match mode
    case Pooled => x.count >= m.client
    case OneShot => true
    case Dedicated => x.place == Errored || (x.place.Answered? && x.place.full) || x.count >= m.client
  }

  function Moved(s: State, id: ConnId, x: Conn): State
    requires id < |s.conns|
  {
    s.(conns := s.conns[id := x])
  }

  function Next(m: Limits, s: State, a: Action): State
    requires Enabled(s, a)
  {
    match a
    case Open(server) => s.(conns := s.conns + [Conn(server, 0, 0, 0, Held)])
    case Checkout(id) => Moved(s, id, s.conns[id].(place := Held))
    case Send(id) => Moved(s, id, s.conns[id].(count := s.conns[id].count + 1, place := Sent))
    case Handle(id) =>
      var x := s.conns[id];
      var table := Counted(s.tables[x.server], id);
      Moved(s, id, x.(handled := x.handled + 1, place := Handled(CountOf(table, id) >= m.server)))
        .(tables := s.tables[x.server := table])
    case Fail(id) => Moved(s, id, s.conns[id].(failed := s.conns[id].failed + 1, place := Errored))
    case Reply(id) =>
      var x := s.conns[id];
      var t := Moved(s, id, x.(place := Answered(x.place.full)));
      if x.place.full then t.(tables := s.tables[x.server := Dropped(s.tables[x.server], id)]) else t
    case Settle(id, mode) =>
      var x := s.conns[id];
      Moved(s, id, x.(place := if Closes(m, x, mode) then Closing
                               else if mode.Pooled? then Idle else Held))
    case Abandon(id) => Moved(s, id, s.conns[id].(place := Closing))
    case Forget(id) =>
      var x := s.conns[id];
      Moved(s, id, x.(place := Gone)).(tables := s.tables[x.server := Dropped(s.tables[x.server], id)])
  }

  function Init(servers: nat): State {
    State([], seq(servers, _ => EMPTY))
  }

  function Exec(m: Limits, s: State, trace: seq<Action>): Option<State>
    decreases |trace|
  {
    if trace == [] then Some(s)
    else if Enabled(s, trace[0]) then Exec(m, Next(m, s, trace[0]), trace[1..])
    else None
  }

  // ----- the invariant -----

  /** The server's count for a connection; 0 when it has no entry. */
  function ServerCount(s: State, id: ConnId): int
    requires id < |s.conns| && s.conns[id].server < |s.tables|
  {
    CountOf(s.tables[s.conns[id].server], id)
  }

  ghost predicate HasEntry(s: State, id: ConnId)
    requires id < |s.conns| && s.conns[id].server < |s.tables|
  {
    id in s.tables[s.conns[id].server].counts
  }

  /** Every request the client counted was handled, failed, or is on its way. */
  ghost predicate BooksOk(x: Conn) {
    && x.handled >= 0 && x.failed >= 0
    && x.count == x.handled + x.failed + if x.place == Sent then 1 else 0
  }

  ghost predicate ConnOk(m: Limits, s: State, id: ConnId)
    requires id < |s.conns| && s.conns[id].server < |s.tables|
  {
    var x := s.conns[id];
    && BooksOk(x)
    && x.count <= m.client
    && (x.place == Idle || x.place == Held ==> x.count < m.client)
    // Between opening and closing, the server's count is the number handled.
    && (!x.place.Closing? && !x.place.Gone? && x.place != Answered(true) ==> ServerCount(s, id) == x.handled)
    && (HasEntry(s, id) ==> ServerCount(s, id) == x.handled >= 1)
    && (x.place.Handled? ==> HasEntry(s, id) && (x.place.full <==> x.handled >= m.server))
    // The server only ever drops first when the client is about to close as well.
    && (x.place == Answered(true) ==> !HasEntry(s, id) && x.count == m.client)
    && (x.place.Gone? ==> !HasEntry(s, id))
  }

  ghost predicate Known(t: Table, id: ConnId) { id in t.counts }

  ghost predicate OpenedTo(s: State, id: ConnId, k: nat) {
    id < |s.conns| && s.conns[id].server == k
  }

  /** Servers know only connections that were opened to them. */
  ghost predicate TablesOk(s: State) {
    forall k, id :: 0 <= k < |s.tables| && Known(s.tables[k], id) ==> OpenedTo(s, id, k)
  }

  ghost predicate StatsAllOk(s: State) {
    forall k :: 0 <= k < |s.tables| ==> StatsOk(s.tables[k])
  }

  ghost predicate Inv(m: Limits, s: State) {
    && (forall id :: 0 <= id < |s.conns| ==> s.conns[id].server < |s.tables|)
    && (forall id :: 0 <= id < |s.conns| ==> ConnOk(m, s, id))
    && TablesOk(s) && StatsAllOk(s)
  }

  // ----- one step -----

  /** A step on one connection touches only that connection and its own table entry. */
  ghost predicate OthersUntouched(s: State, t: State, id: ConnId) {
    && |t.conns| >= |s.conns| && |t.tables| == |s.tables|
    && (forall other :: 0 <= other < |s.conns| && other != id ==> t.conns[other] == s.conns[other])
    && (forall k, other :: 0 <= k < |s.tables| && other != id ==>
          Entry(t.tables[k], other) == Entry(s.tables[k], other))
  }

  lemma OthersKeepOk(m: Limits, s: State, t: State, id: ConnId, other: ConnId)
    requires Inv(m, s) && OthersUntouched(s, t, id) && other < |s.conns| && other != id
    ensures t.conns[other].server < |t.tables| && ConnOk(m, t, other)
  {
    assert ConnOk(m, s, other);
    var k := s.conns[other].server;
    assert Entry(t.tables[k], other) == Entry(s.tables[k], other);
  }

  lemma NextTouchesOne(m: Limits, s: State, a: Action)
    requires Inv(m, s) && Enabled(s, a)
    ensures OthersUntouched(s, Next(m, s, a), if a.Open? then |s.conns| else a.id)
  {
    var t := Next(m, s, a);
    if !a.Open? {
      var k := s.conns[a.id].server;
      forall other | other != a.id ensures Entry(t.tables[k], other) == Entry(s.tables[k], other) {
      }
    }
  }

  lemma NextKeepsConn(m: Limits, s: State, a: Action)
    requires Inv(m, s) && Enabled(s, a) && !a.Open? && 1 <= m.client <= m.server
    ensures ConnOk(m, Next(m, s, a), a.id)
  {
    assert ConnOk(m, s, a.id);
  }

  lemma OpenKeeps(m: Limits, s: State, a: Action)
    requires Inv(m, s) && Enabled(s, a) && a.Open? && 1 <= m.client
    ensures ConnOk(m, Next(m, s, a), |s.conns|)
  {
    assert !Known(s.tables[a.server], |s.conns|);
  }

  lemma NextKeepsTables(m: Limits, s: State, a: Action)
    requires Inv(m, s) && Enabled(s, a)
    ensures TablesOk(Next(m, s, a)) && StatsAllOk(Next(m, s, a))
  {
    var t := Next(m, s, a);
    var id := if a.Open? then |s.conns| else a.id;
    NextTouchesOne(m, s, a);
    if !a.Open? { StatsKept(s.tables[s.conns[id].server], id); }
    forall k, other | 0 <= k < |t.tables| && Known(t.tables[k], other) ensures OpenedTo(t, other, k) {
      if a.Open? || other != id || k != s.conns[id].server {
        assert Entry(t.tables[k], other) == Entry(s.tables[k], other);
        assert Known(s.tables[k], other);
        assert OpenedTo(s, other, k);
      }
    }
  }

  lemma NextKeepsInv(m: Limits, s: State, a: Action)
    requires Inv(m, s) && Enabled(s, a) && 1 <= m.client <= m.server
    ensures Inv(m, Next(m, s, a))
  {
    var t := Next(m, s, a);
    var id := if a.Open? then |s.conns| else a.id;
    NextTouchesOne(m, s, a);
    NextKeepsTables(m, s, a);
    if a.Open? { OpenKeeps(m, s, a); } else { NextKeepsConn(m, s, a); }
    assert forall other :: 0 <= other < |t.conns| ==> t.conns[other].server < |t.tables|;
    forall other | 0 <= other < |t.conns| ensures ConnOk(m, t, other) {
      if other != id { OthersKeepOk(m, s, t, id, other); }
    }
  }

  lemma {:induction false} ExecKeepsInv(m: Limits, s: State, trace: seq<Action>)
    requires Inv(m, s) && 1 <= m.client <= m.server
    ensures Exec(m, s, trace).Some? ==> Inv(m, Exec(m, s, trace).value)
    decreases |trace|
  {
    if trace != [] && Enabled(s, trace[0]) {
      NextKeepsInv(m, s, trace[0]);
      ExecKeepsInv(m, Next(m, s, trace[0]), trace[1..]);
    }
  }

  ghost predicate Reachable(m: Limits, servers: nat, s: State) {
    exists trace :: Exec(m, Init(servers), trace) == Some(s)
  }

  lemma ReachableInv(m: Limits, servers: nat, s: State)
    requires Reachable(m, servers, s) && 1 <= m.client <= m.server
    ensures Inv(m, s)
  {
    var trace :| Exec(m, Init(servers), trace) == Some(s);
    ExecKeepsInv(m, Init(servers), trace);
  }

  /** Who settles a connection decides where it ends: the pool keeps it below its limit, whatever
      the server said; a one-shot caller closes it; a worker keeps it only below its limit,
      after an answer that did not say to close. */
  lemma SettlesByMode(m: Limits, s: State, id: ConnId, mode: Mode)
    requires Enabled(s, Settle(id, mode))
    ensures var x, place := s.conns[id], Next(m, s, Settle(id, mode)).conns[id].place;
            && (mode.Pooled? ==> place == if x.count < m.client then Idle else Closing)
            && (mode.OneShot? ==> place == Closing)
            && (mode.Dedicated? ==> place == if x.count < m.client && x.place == Answered(false) then Held else Closing)
            && Next(m, s, Settle(id, mode)).tables == s.tables
  {
  }

  // ----- what it means -----

  /** Both sides agree about a connection at rest: the client's count is the server's plus the
      requests no server answered. */
  ghost predicate Agrees(s: State, id: ConnId) {
    id < |s.conns| && s.conns[id].server < |s.tables| &&
    (s.conns[id].place == Idle || s.conns[id].place == Held ==>
       s.conns[id].count == ServerCount(s, id) + s.conns[id].failed)
  }

  /** Agreement, with the server's limit not below the client's: in every interleaving a
      connection at rest has the same count on both sides, up to requests that failed to reach
      the server; no connection carries or is counted beyond the client's limit; an idle
      connection is below it; a closed connection has no entry left anywhere. */
  lemma CountsAgree(m: Limits, servers: nat, s: State, id: ConnId)
    requires Reachable(m, servers, s) && 1 <= m.client <= m.server && id < |s.conns|
    ensures Agrees(s, id)
    ensures s.conns[id].handled <= s.conns[id].count <= m.client
    ensures s.conns[id].place == Idle ==> s.conns[id].count < m.client
    ensures s.conns[id].place == Gone ==> forall k :: 0 <= k < |s.tables| ==> id !in s.tables[k].counts
  {
    ReachableInv(m, servers, s);
    assert ConnOk(m, s, id);
    forall k | 0 <= k < |s.tables| && s.conns[id].place == Gone ensures id !in s.tables[k].counts {
      if Known(s.tables[k], id) { assert OpenedTo(s, id, k); }
    }
  }

  lemma GoneStaysGone(m: Limits, s: State, a: Action, id: ConnId)
    requires Inv(m, s) && Enabled(s, a) && id < |s.conns| && s.conns[id].place == Gone
    ensures id < |Next(m, s, a).conns| && Next(m, s, a).conns[id] == s.conns[id]
  {
    NextTouchesOne(m, s, a);
  }

  lemma {:induction false} GoneAlong(m: Limits, s: State, trace: seq<Action>, t: State, id: ConnId)
    requires Inv(m, s) && 1 <= m.client <= m.server && Exec(m, s, trace) == Some(t)
    requires id < |s.conns| && s.conns[id].place == Gone
    ensures Inv(m, t) && id < |t.conns| && t.conns[id] == s.conns[id]
    decreases |trace|
  {
    if trace != [] {
      NextKeepsInv(m, s, trace[0]);
      GoneStaysGone(m, s, trace[0], id);
      GoneAlong(m, Next(m, s, trace[0]), trace[1..], t, id);
    }
  }

  /** A closed connection stays closed: along any continuation of any run nothing touches it
      again and no server has an entry for it. */
  lemma GoneIsForever(m: Limits, servers: nat, s: State, trace: seq<Action>, t: State, id: ConnId)
    requires Reachable(m, servers, s) && 1 <= m.client <= m.server && Exec(m, s, trace) == Some(t)
    requires id < |s.conns| && s.conns[id].place == Gone
    ensures id < |t.conns| && t.conns[id] == s.conns[id]
    ensures forall k :: 0 <= k < |t.tables| ==> id !in t.tables[k].counts
  {
    ReachableInv(m, servers, s);
    GoneAlong(m, s, trace, t, id);
    assert ConnOk(m, t, id);
    forall k | 0 <= k < |t.tables| ensures id !in t.tables[k].counts {
      assert Known(t.tables[k], id) ==> OpenedTo(t, id, k);
    }
  }

  /** When no request is under way, each server's active-connection statistic is the number of
      its table entries, and those are exactly its open connections it has ever answered. */
  lemma ActiveCountsOpenConnections(m: Limits, servers: nat, s: State, k: nat, id: ConnId)
    requires Reachable(m, servers, s) && 1 <= m.client <= m.server && k < |s.tables|
    requires forall i :: 0 <= i < |s.conns| ==> s.conns[i].place in {Idle, Held, Gone}
    ensures s.tables[k].active == |s.tables[k].counts| == s.tables[k].total - s.tables[k].closed
    ensures id in s.tables[k].counts
            <==> id < |s.conns| && s.conns[id].server == k && s.conns[id].place != Gone && s.conns[id].handled > 0
  {
    ReachableInv(m, servers, s);
    assert StatsOk(s.tables[k]);
    if id < |s.conns| { assert ConnOk(m, s, id); }
    if Known(s.tables[k], id) { assert OpenedTo(s, id, k); }
  }
}
