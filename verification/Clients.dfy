/** The client's objects: connections, the connection pool and Client.Send, for one caller at
    a time. Picker results, new connection IDs and limiter answers are passed in. */
module Clients {
  import opened Common
  import opened Servers
  import opened PoolProtocol

  /** An answer that carries what the server's limiter said. */
  ghost predicate Answers(resp: Option<Response>, check: Check) {
    resp.Some? ==>
      && resp.value.status == (if check.Deny? then 429 else if check.CheckFails? then 500 else 200)
      && resp.value.rateLimited == check.Deny?
  }

  class Connection {
    const id: ConnId
    const serverId: ServerId
    const maxRequests: int
    const transport: Transport
    var requestCount: int
    var closed: bool
    /** Requests that no server answered. */
    ghost var failed: int

    /** The servers' limits are not below the client's. */
    ghost predicate LimitsFit() {
      forall i :: 0 <= i < |transport.servers| ==> maxRequests <= transport.servers[i].maxRequests
    }

    /** The server's count is the client's, less the requests no server answered. */
    ghost predicate Agrees()
      reads this, transport.servers
    {
      && requestCount >= failed >= 0
      && forall i :: 0 <= i < |transport.servers| && transport.servers[i].id == serverId ==>
           CountOf(transport.servers[i].Contents(), id) == requestCount - failed
    }

    /** Open and below its limit: fit to carry another request. */
    predicate Usable()
      reads this
    {
      !closed && requestCount < maxRequests
    }

    constructor (id: ConnId, serverId: ServerId, maxRequests: int, transport: Transport)
      ensures this.id == id && this.serverId == serverId && this.maxRequests == maxRequests
      ensures this.transport == transport && requestCount == 0 && failed == 0 && !closed
    {
      this.id := id;
      this.serverId := serverId;
      this.maxRequests := maxRequests;
      this.transport := transport;
      requestCount, failed, closed := 0, 0, false;
    }

    predicate ShouldClose()
      reads this
    {
      requestCount >= maxRequests
    }

    /** The request on its way: only this connection's entry at its own server can change. */
    method Forward(check: Check) returns (resp: Option<Response>)
      requires transport.Valid()
      modifies transport.servers
      ensures transport.Valid()
      ensures forall i, other :: (0 <= i < |transport.servers|
                                  && (resp.None? || other != id || transport.servers[i].id != serverId)) ==>
                Entry(transport.servers[i].Contents(), other) == old(Entry(transport.servers[i].Contents(), other))
      ensures Answers(resp, check)
      ensures resp.Some? ==> forall i :: 0 <= i < |transport.servers| && transport.servers[i].id == serverId ==>
                var before := old(CountOf(transport.servers[i].Contents(), id));
                && (resp.value.shouldClose <==> before + 1 >= transport.servers[i].maxRequests)
                && (!resp.value.shouldClose ==> CountOf(transport.servers[i].Contents(), id) == before + 1)
      ensures resp.Some? ==> exists i :: 0 <= i < |transport.servers| && transport.servers[i].id == serverId
      ensures resp.Some? <==> transport.Runs(serverId)
      ensures resp.None? ==> forall i :: 0 <= i < |transport.servers| ==>
                CountOf(transport.servers[i].Contents(), id) == old(CountOf(transport.servers[i].Contents(), id))
    {
      resp := transport.Send(serverId, id, check);
    }

    /** No answer from a closed connection or an absent server. The answer says to close
        when either side's limit is reached. If the servers' limits are not lower, that is
        exactly when the client's is, and a connection that agreed with its server still does
        below it. Other connections' entries are not touched. */
    method Send(check: Check) returns (resp: Option<Response>)
      requires transport.Valid()
      modifies this, transport.servers
      ensures transport.Valid() && closed == old(closed)
      ensures closed ==> resp.None? && requestCount == old(requestCount) && failed == old(failed)
      ensures !closed ==> requestCount == old(requestCount) + 1
                          && failed == old(failed) + if resp.None? then 1 else 0
      ensures forall i, other :: (0 <= i < |transport.servers|
                                  && (closed || other != id || transport.servers[i].id != serverId)) ==>
                Entry(transport.servers[i].Contents(), other) == old(Entry(transport.servers[i].Contents(), other))
      ensures Answers(resp, check)
      ensures resp.Some? ==> forall i :: 0 <= i < |transport.servers| && transport.servers[i].id == serverId ==>
                (resp.value.shouldClose <==>
                   ShouldClose()
                   || old(CountOf(transport.servers[i].Contents(), id)) + 1 >= transport.servers[i].maxRequests)
      ensures resp.Some? <==> !closed && transport.Runs(serverId)
      ensures resp.Some? && ShouldClose() ==> resp.value.shouldClose
      ensures old(Agrees()) && old(Usable()) && LimitsFit() ==>
                && (Usable() ==> Agrees())
                && (resp.Some? ==> (resp.value.shouldClose <==> ShouldClose()))
    {
      if closed {
        return None;
      }
      requestCount := requestCount + 1;
      var shouldClose := requestCount >= maxRequests;
      resp := Forward(check);
      if resp.None? {
        failed := failed + 1;
        return;
      }
      if shouldClose {
        resp := Some(resp.value.(shouldClose := true));
      }
    }

    /** Closing twice is closing once; afterwards the server no longer knows the connection. */
    method Close()
      requires transport.Valid()
      modifies this, transport.servers
      ensures transport.Valid() && closed && requestCount == old(requestCount) && failed == old(failed)
      ensures forall i :: 0 <= i < |transport.servers| ==>
                transport.servers[i].running == old(transport.servers[i].running)
      ensures !old(closed) ==> forall i :: 0 <= i < |transport.servers| && transport.servers[i].id == serverId ==>
                id !in transport.servers[i].connections
      ensures forall i, other :: (0 <= i < |transport.servers|
                                  && (old(closed) || other != id || transport.servers[i].id != serverId)) ==>
                Entry(transport.servers[i].Contents(), other) == old(Entry(transport.servers[i].Contents(), other))
    {
      if closed {
        return;
      }
      closed := true;
      transport.CloseConnection(serverId, id);
    }
  }

  /** What Get comes back with. WouldBlock: the limit is reached and nothing is idle, so the
      caller sleeps on the condition variable. */
  datatype Checkout = Got(conn: Connection) | WouldBlock | PickFailed | PoolClosed

  /** `c` was the last of the idle connections with lifo, the first with fifo. */
  ghost predicate TakenBy(strategy: Strategy, idle: seq<Connection>, c: Connection, rest: seq<Connection>) {
    match strategy
    case Lifo => idle == rest + [c]
    case Fifo => idle == [c] + rest
  }

  class Pool {
    const maxRequests: int
    const limit: int
    const strategy: Strategy
    const transport: Transport
    var idle: seq<Connection>
    var total: int
    var closed: bool

    /** Idle connections are fit for use and distinct, by identity and by ID. */
    ghost predicate Valid()
      reads this, idle, transport.servers
    {
      && maxRequests > 0 && transport.Valid()
      && (forall i :: 0 <= i < |idle| ==> Ours(idle[i]) && idle[i].Usable())
      && (forall i, j :: 0 <= i < j < |idle| ==> idle[i] != idle[j] && idle[i].id != idle[j].id)
    }

    /** Every idle connection has the count its server has for it. */
    ghost predicate Sound()
      reads this, idle, transport.servers
    {
      forall i :: 0 <= i < |idle| ==> Ours(idle[i]) && idle[i].Agrees()
    }

    /** No server's limit is below the pool's. */
    ghost predicate LimitsFit() {
      forall i :: 0 <= i < |transport.servers| ==> maxRequests <= transport.servers[i].maxRequests
    }

    ghost predicate Ours(c: Connection) {
      c.transport == transport && c.maxRequests == maxRequests
    }

    /** An ID no idle connection uses and no server knows. */
    ghost predicate Unused(id: ConnId)
      reads this, idle, transport.servers
    {
      && (forall i :: 0 <= i < |idle| ==> idle[i].id != id)
      && (forall i :: 0 <= i < |transport.servers| ==> id !in transport.servers[i].connections)
    }

    constructor (maxRequests: int, limit: int, strategy: Strategy, transport: Transport)
      ensures this.maxRequests == (if maxRequests <= 0 then 150 else maxRequests)
      ensures this.limit == limit && this.strategy == strategy && this.transport == transport
      ensures idle == [] && total == 0 && !closed
    {
      this.maxRequests := if maxRequests <= 0 then 150 else maxRequests;
      this.limit := limit;
      this.strategy := strategy;
      this.transport := transport;
      idle, total, closed := [], 0, false;
    }

    /** Get up to its first wait. `pick` is what the picker returns if it is called, `id` the
        ID a new connection would get. */
    method Get(pick: Option<ServerId>, id: ConnId) returns (r: Checkout)
      requires Valid() && (closed || Unused(id))
      modifies this`idle, this`total
      ensures Valid()
      ensures old(closed) ==> r == PoolClosed && idle == old(idle) && total == old(total)
      ensures !old(closed) && old(idle) != [] ==>
        && r == Got(Taken(strategy, old(idle))) && idle == Remaining(strategy, old(idle)) && total == old(total)
        && TakenBy(strategy, old(idle), r.conn, idle)
      ensures !old(closed) && old(idle) == [] && 0 < limit <= old(total) ==>
        r == WouldBlock && idle == [] && total == old(total)
      ensures !old(closed) && old(idle) == [] && !(0 < limit <= old(total)) ==>
        && idle == []
        && (pick.None? ==> r == PickFailed && total == old(total))
        && (pick.Some? ==> r.Got? && fresh(r.conn) && r.conn.id == id && r.conn.serverId == pick.value
                           && r.conn.requestCount == 0 && total == old(total) + 1)
      ensures r.Got? ==> CheckedOut(r.conn) && r.conn.Usable() && (r.conn in old(idle) || fresh(r.conn))
      ensures old(Sound()) ==> Sound() && (r.Got? ==> r.conn.Agrees())
    {
      if closed {
        return PoolClosed;
      }
      if |idle| > 0 {
        var conn := Taken(strategy, idle);
        idle := Remaining(strategy, idle);
        return Got(conn);
      }
      if limit > 0 && total >= limit {
        return WouldBlock;
      }
      total := total + 1;
      if pick.None? {
        total := total - 1;
        return PickFailed;
      }
      var conn := new Connection(id, pick.value, maxRequests, transport);
      return Got(conn);
    }

    /** A connection as a caller holds it: ours, fit for use or closed, and not idle. */
    ghost predicate CheckedOut(c: Connection)
      reads this, idle, c
    {
      && Ours(c) && (c.closed || c.Usable())
      && forall i :: 0 <= i < |idle| ==> idle[i] != c && idle[i].id != c.id
    }

    /** Create: a connection outside the pool's accounting. */
    method Create(serverId: ServerId, id: ConnId) returns (c: Option<Connection>)
      requires Valid() && Unused(id)
      ensures Valid() && (c.None? <==> closed)
      ensures c.Some? ==> fresh(c.value) && CheckedOut(c.value) && c.value.Usable() && c.value.Agrees()
      ensures c.Some? ==> c.value.id == id && c.value.serverId == serverId && c.value.requestCount == 0
    {
      if closed {
        return None;
      }
      var conn := new Connection(id, serverId, maxRequests, transport);
      return Some(conn);
    }

    /** Closes a connection that is not idle; the idle ones do not notice. */
    method Discard(c: Connection)
      requires Valid() && Ours(c)
      requires forall i :: 0 <= i < |idle| ==> idle[i] != c && idle[i].id != c.id
      modifies c, transport.servers
      ensures Valid() && c.closed && c.requestCount == old(c.requestCount)
      ensures old(Sound()) ==> Sound()
      ensures forall id :: old(Unused(id)) ==> Unused(id)
      ensures forall sid :: transport.Runs(sid) == old(transport.Runs(sid))
      ensures !old(c.closed) ==> forall i :: 0 <= i < |transport.servers| && transport.servers[i].id == c.serverId ==>
                c.id !in transport.servers[i].connections
      ensures forall i, other :: (0 <= i < |transport.servers|
                                  && (old(c.closed) || other != c.id || transport.servers[i].id != c.serverId)) ==>
                Entry(transport.servers[i].Contents(), other) == old(Entry(transport.servers[i].Contents(), other))
    {
      c.Close();
      IdleDoNotNotice(c);
      forall id | old(Unused(id)) ensures Unused(id) { UnusedStays(id); }
    }

    /** An ID without an entry has none where entries were kept or dropped. */
    twostate lemma UnusedStays(id: ConnId)
      requires idle == old(idle) && old(Unused(id))
      requires forall i :: 0 <= i < |transport.servers| ==>
                 Entry(transport.servers[i].Contents(), id) == old(Entry(transport.servers[i].Contents(), id))
                 || id !in transport.servers[i].connections
      ensures Unused(id)
    {
      forall i | 0 <= i < |transport.servers| ensures id !in transport.servers[i].connections {
        assert old(id !in transport.servers[i].connections);
      }
    }

    /** What happened to one connection's entries leaves the other connections in agreement. */
    twostate lemma IdleDoNotNotice(c: Connection)
      requires idle == old(idle) && old(Valid())
      requires forall i :: 0 <= i < |idle| ==> idle[i] != c && idle[i].id != c.id
      requires forall i :: 0 <= i < |idle| ==>
                 idle[i].requestCount == old(idle[i].requestCount) && idle[i].failed == old(idle[i].failed)
      requires forall i, other :: 0 <= i < |transport.servers| && other != c.id ==>
                 Entry(transport.servers[i].Contents(), other) == old(Entry(transport.servers[i].Contents(), other))
      ensures old(Sound()) ==> Sound()
    {
      if old(Sound()) {
        forall i | 0 <= i < |idle| ensures idle[i].Agrees() {
          var other := idle[i];
          assert old(other.Agrees());
          assert forall k :: 0 <= k < |transport.servers| ==>
            Entry(transport.servers[k].Contents(), other.id) == old(Entry(transport.servers[k].Contents(), other.id));
        }
      }
    }

    /** One more connection becomes idle. */
    method Keep(c: Connection)
      requires Valid() && Ours(c) && c.Usable()
      requires forall i :: 0 <= i < |idle| ==> idle[i] != c && idle[i].id != c.id
      modifies this`idle
      ensures Valid() && idle == old(idle) + [c]
      ensures old(Sound()) && c.Agrees() ==> Sound()
    {
      idle := idle + [c];
      assert forall i :: 0 <= i < |idle| ==> idle[i] == if i < |old(idle)| then old(idle)[i] else c;
    }

    /** A connection at its limit leaves the pool. */
    method Retire(c: Connection)
      requires Valid() && Ours(c)
      requires forall i :: 0 <= i < |idle| ==> idle[i] != c && idle[i].id != c.id
      modifies this`total, c, transport.servers
      ensures Valid() && c.closed && c.requestCount == old(c.requestCount) && total == old(total) - 1
      ensures old(Sound()) ==> Sound()
      ensures forall sid :: transport.Runs(sid) == old(transport.Runs(sid))
    {
      total := total - 1;
      Discard(c);
    }

    /** Put: a connection at its limit leaves the pool and is closed, any other becomes the
        last idle one. */
    method Put(c: Connection)
      requires Valid() && Ours(c)
      requires forall i :: 0 <= i < |idle| ==> idle[i] != c && idle[i].id != c.id
      requires !closed && !c.ShouldClose() ==> !c.closed
      modifies this`idle, this`total, c, transport.servers
      ensures Valid() && c.requestCount == old(c.requestCount)
      ensures closed || c.requestCount >= c.maxRequests ==> c.closed && idle == old(idle)
      ensures !closed && c.requestCount < c.maxRequests ==> !c.closed && idle == old(idle) + [c]
      ensures total == old(total) - if !closed && c.requestCount >= c.maxRequests then 1 else 0
      ensures old(Sound()) && (c.closed || old(c.Agrees())) ==> Sound()
      ensures forall sid :: transport.Runs(sid) == old(transport.Runs(sid))
    {
      if closed {
        Discard(c);
      } else if c.ShouldClose() {
        Retire(c);
      } else {
        Keep(c);
      }
    }

    /** A request on a connection that is not idle; the idle ones do not notice. */
    method Transmit(c: Connection, check: Check) returns (resp: Option<Response>)
      requires Valid() && CheckedOut(c)
      modifies c, transport.servers
      ensures Valid() && c.closed == old(c.closed)
      ensures c.closed ==> resp.None? && c.requestCount == old(c.requestCount)
      ensures !c.closed ==> c.requestCount == old(c.requestCount) + 1
                            && c.failed == old(c.failed) + if resp.None? then 1 else 0
      ensures Answers(resp, check) && (resp.Some? && c.ShouldClose() ==> resp.value.shouldClose)
      ensures resp.Some? <==> !c.closed && transport.Runs(c.serverId)
      ensures old(Sound()) ==> Sound()
      ensures old(c.Agrees()) && LimitsFit() && !c.closed ==>
                && (c.Usable() ==> c.Agrees())
                && (resp.Some? && resp.value.shouldClose ==> c.ShouldClose())
      ensures forall i, other :: (0 <= i < |transport.servers|
                                  && (other != c.id || transport.servers[i].id != c.serverId)) ==>
                Entry(transport.servers[i].Contents(), other) == old(Entry(transport.servers[i].Contents(), other))
    {
      resp := c.Send(check);
      IdleDoNotNotice(c);
    }

    /** A request on a pooled connection, which then goes back or, at its limit, is closed. The
        pool does not follow the server's instruction: it stays in agreement if the limits fit. */
    method SendAndPut(c: Connection, check: Check) returns (resp: Option<Response>)
      requires Valid() && !closed && CheckedOut(c) && !c.closed
      modifies this`idle, this`total, c, transport.servers
      ensures Valid() && total - |idle| == old(total - |idle|) - 1
      ensures Answers(resp, check) && (resp.Some? && c.ShouldClose() ==> resp.value.shouldClose)
      ensures resp.Some? <==> transport.Runs(c.serverId)
      ensures c.requestCount == old(c.requestCount) + 1 && (c.closed <==> c.requestCount >= maxRequests)
      ensures idle == if c.closed then old(idle) else old(idle) + [c]
      ensures total == old(total) - if c.closed then 1 else 0
      ensures old(Sound() && c.Agrees()) && LimitsFit() ==>
                Sound() && (resp.Some? ==> (resp.value.shouldClose <==> c.closed))
    {
      resp := Transmit(c, check);
      Put(c);
    }

    /** A request that finds connections idle uses the one the strategy takes, which then goes
        back last, or leaves at its limit. */
    ghost predicate UsesIdle(before: seq<Connection>, answered: bool, used: Option<Connection>)
      requires before != []
      reads this, before, transport.servers
    {
      var n := |before|;
      var c := if strategy.Lifo? then before[n - 1] else before[0];
      && used == Some(c)
      && (answered <==> transport.Runs(c.serverId))
      && idle == if c.requestCount >= maxRequests then (if strategy.Lifo? then before[..n - 1] else before[1..])
                 else if strategy.Lifo? then before
                 else before[1..] + [c]
    }

    /** A request that finds nothing idle: asleep at the limit, else on a new connection to the
        server picked, if one was. */
    ghost predicate UsesNew(totalBefore: int, asleep: bool, answered: bool, used: Option<Connection>,
                            pick: Option<ServerId>, id: ConnId)
      reads this, transport.servers, if used.Some? then {used.value} else {}
    {
      && (asleep <==> 0 < limit <= totalBefore)
      && (used.Some? <==> !asleep && pick.Some?)
      && (answered <==> used.Some? && transport.Runs(pick.value))
      && (used.Some? ==> used.value.id == id && used.value.requestCount == 1)
      && (used.None? ==> total == totalBefore)
      && idle == if used.None? || maxRequests <= 1 then [] else [used.value]
    }

    /** What became of a pooled request, from the pool's idle list and counter before it: refused
        by a closed pool, else on an idle connection if there is one, else on a new one. */
    ghost predicate Served(before: seq<Connection>, totalBefore: int, asleep: bool, answered: bool,
                           used: Option<Connection>, pick: Option<ServerId>, id: ConnId)
      reads this, before, transport.servers, if used.Some? then {used.value} else {}
    {
      if closed then !asleep && !answered && used.None? && idle == before && total == totalBefore
      else if before != [] then !asleep && UsesIdle(before, answered, used)
      else UsesNew(totalBefore, asleep, answered, used, pick, id)
    }

    /** A pooled request from Get to Put: refused by a closed pool; on the idle connection the
        strategy takes, if there is one; blocked at the limit; else on a new connection. */
    method UsePooled(pick: Option<ServerId>, id: ConnId, check: Check)
        returns (asleep: bool, used: Option<Connection>, resp: Option<Response>)
      requires Valid() && (closed || Unused(id))
      modifies this`idle, this`total, idle, transport.servers
      ensures Valid() && total - |idle| == old(total - |idle|)
      ensures Answers(resp, check) && (asleep ==> resp.None? && used.None?) && (used.None? ==> resp.None?)
      ensures Served(old(idle), old(total), asleep, resp.Some?, used, pick, id)
      ensures forall i :: 0 <= i < |old(idle)| ==>
                old(idle)[i].requestCount
                == old(idle[i].requestCount) + if used == Some(old(idle)[i]) then 1 else 0
      ensures old(Sound()) && LimitsFit() ==> Sound()
    {
      var got := Get(pick, id);
      asleep, used, resp := got.WouldBlock?, None, None;
      if got.Got? {
        used := Some(got.conn);
        resp := SendAndPut(got.conn, check);
      }
    }

    /** A request on a one-shot connection, of which nothing is left. */
    method SendAndClose(c: Connection, check: Check) returns (resp: Option<Response>)
      requires Valid() && CheckedOut(c) && !c.closed
      modifies c, transport.servers
      ensures Valid() && c.closed && (old(Sound()) ==> Sound())
      ensures resp.Some? <==> transport.Runs(c.serverId)
      ensures Answers(resp, check) && (resp.Some? && c.ShouldClose() ==> resp.value.shouldClose)
      ensures old(Unused(c.id)) ==> Unused(c.id)
    {
      resp := Transmit(c, check);
      label sent:
      Discard(c);
      if old(Unused(c.id)) {
        forall i | 0 <= i < |transport.servers| ensures c.id !in transport.servers[i].connections {
          var server := transport.servers[i];
          if server.id != c.serverId {
            assert Entry(server.Contents(), c.id) == old@sent(Entry(server.Contents(), c.id));
            assert Entry(server.Contents(), c.id) == old(Entry(server.Contents(), c.id));
          }
        }
      }
    }

    /** A one-shot request from making the connection to closing it. */
    method OneShot(pick: Option<ServerId>, id: ConnId, check: Check) returns (made: bool, resp: Option<Response>)
      requires Valid() && Unused(id)
      modifies transport.servers
      ensures Valid() && Unused(id) && (old(Sound()) ==> Sound())
      ensures made <==> pick.Some? && !closed
      ensures resp.Some? <==> made && transport.Runs(pick.value)
      ensures Answers(resp, check)
    {
      if pick.None? {
        return false, None;
      }
      var c := Create(pick.value, id);
      if c.None? {
        return false, None;
      }
      resp := SendAndClose(c.value, check);
      made := true;
    }

    /** A request on a worker's connection: closed on failure and when either side says so, else
        kept. */
    method SendAndKeep(c: Connection, check: Check) returns (resp: Option<Response>)
      requires Valid() && CheckedOut(c)
      modifies c, transport.servers
      ensures Valid() && CheckedOut(c) && (old(Sound()) ==> Sound())
      ensures Answers(resp, check) && (resp.Some? <==> !old(c.closed) && transport.Runs(c.serverId))
      ensures c.requestCount == old(c.requestCount) + if old(c.closed) then 0 else 1
      ensures c.closed <==> resp.None? || resp.value.shouldClose
      ensures old(c.Agrees()) && LimitsFit() ==>
                (c.closed <==> resp.None? || c.ShouldClose()) && (!c.closed ==> c.Agrees())
    {
      resp := Transmit(c, check);
      if resp.None? || resp.value.shouldClose || c.ShouldClose() {
        Discard(c);
      }
    }

    /** The connection's server has no entry for it. */
    ghost predicate Forgotten(c: Connection)
      reads transport.servers
    {
      forall k :: 0 <= k < |transport.servers| && transport.servers[k].id == c.serverId ==>
        c.id !in transport.servers[k].connections
    }

    /** Close: every idle connection is closed; the counter is not reduced. */
    method Close()
      requires Valid()
      modifies this`idle, this`closed, idle, transport.servers
      ensures Valid() && closed && idle == []
      ensures forall c :: c in old(idle) ==> c.closed && Forgotten(c)
    {
      closed := true;
      var conns := idle;
      idle := [];
      for i := 0 to |conns|
        invariant closed && idle == [] && Valid()
        invariant forall j :: 0 <= j < i ==> conns[j].closed && Forgotten(conns[j])
        invariant forall j :: i <= j < |conns| ==> !conns[j].closed
        invariant forall j :: 0 <= j < |conns| ==> conns[j] in old(idle)
        modifies conns, transport.servers
      {
        CloseAfter(conns[i], conns[..i]);
      }
    }

    /** Closes one more connection; those closed before it stay forgotten. */
    method CloseAfter(c: Connection, ghost done: seq<Connection>)
      requires transport.Valid() && c.transport == transport && !c.closed
      requires forall d :: d in done ==> d != c && d.closed && Forgotten(d)
      modifies c, transport.servers
      ensures transport.Valid() && c.closed && Forgotten(c)
      ensures forall d :: d in done ==> Forgotten(d)
    {
      c.Close();
      forall d, k | d in done && 0 <= k < |transport.servers| && transport.servers[k].id == d.serverId
        ensures d.id !in transport.servers[k].connections
      {
        assert old(Forgotten(d));
        if d.id != c.id || transport.servers[k].id != c.serverId {
          assert Entry(transport.servers[k].Contents(), d.id) == old(Entry(transport.servers[k].Contents(), d.id));
        }
      }
    }
  }

  datatype ConnectionMode = Reuse | PerRequest | Hybrid | Dedicated

  /** How a Send ends; Asleep when the pool makes it wait. */
  datatype SendResult = Answer(resp: Response) | Failed | ClientClosed | Asleep

  class Client {
    const pool: Pool
    var mode: ConnectionMode
    var closed: bool
    var totalRequests: int
    var successful: int
    var rateLimited: int
    var failed: int
    var connectionsOpened: int
    var connectionsClosed: int
    /** Sends asleep in the pool. */
    ghost var asleep: int

    ghost function Outcomes(): int
      reads this
    {
      successful + rateLimited + failed + asleep
    }

    /** Every request counted had exactly one outcome or is still asleep. */
    ghost predicate OutcomesOk()
      reads this
    {
      totalRequests == Outcomes() && totalRequests >= 0
    }

    ghost predicate Valid()
      reads this, pool, pool.idle, pool.transport.servers
    {
      pool.Valid() && OutcomesOk()
    }

    constructor (pool: Pool, mode: ConnectionMode)
      ensures this.pool == pool && this.mode == mode && !closed && OutcomesOk() && totalRequests == 0
    {
      this.pool := pool;
      this.mode := mode;
      closed := false;
      totalRequests, successful, rateLimited, failed, asleep := 0, 0, 0, 0, 0;
      connectionsOpened, connectionsClosed := 0, 0;
    }

    /** A connection outside the pool: picks a server and makes one. */
    method CreateDedicatedConnection(pick: Option<ServerId>, id: ConnId) returns (c: Option<Connection>)
      requires pool.Valid() && pool.Unused(id)
      modifies this`connectionsOpened
      ensures pool.Valid()
      ensures c.Some? <==> pick.Some? && !pool.closed
      ensures connectionsOpened == old(connectionsOpened) + if c.Some? then 1 else 0
      ensures c.Some? ==> fresh(c.value) && pool.CheckedOut(c.value) && !c.value.closed
                          && c.value.id == id && c.value.serverId == pick.value && c.value.requestCount == 0
                          && c.value.Agrees()
    {
      if pick.None? {
        return None;
      }
      c := pool.Create(pick.value, id);
      if c.Some? {
        connectionsOpened := connectionsOpened + 1;
      }
    }

    /** The counters after a request with outcome `r`. */
    ghost predicate Recorded(r: SendResult, ok: int, limited: int, bad: int, sleeping: int)
      reads this
    {
      && !r.ClientClosed?
      && successful == ok + (if r.Answer? && !r.resp.rateLimited then 1 else 0)
      && rateLimited == limited + (if r.Answer? && r.resp.rateLimited then 1 else 0)
      && failed == bad + (if r.Failed? then 1 else 0)
      && asleep == sleeping + (if r.Asleep? then 1 else 0)
    }

    /** Books the end of a request: connections opened and closed for it, and its outcome. */
    method Conclude(resp: Option<Response>, opens: int, closes: int) returns (r: SendResult)
      modifies this`successful, this`rateLimited, this`failed
      modifies this`connectionsOpened, this`connectionsClosed
      ensures Recorded(r, old(successful), old(rateLimited), old(failed), asleep)
      ensures Outcomes() == old(Outcomes()) + 1
      ensures r == if resp.None? then Failed else Answer(resp.value)
      ensures pool.Valid() == old(pool.Valid()) && pool.Sound() == old(pool.Sound())
      ensures connectionsOpened == old(connectionsOpened) + opens
      ensures connectionsClosed == old(connectionsClosed) + closes
    {
      connectionsOpened := connectionsOpened + opens;
      connectionsClosed := connectionsClosed + closes;
      if resp.None? {
        failed := failed + 1;
        return Failed;
      }
      if resp.value.rateLimited {
        rateLimited := rateLimited + 1;
      } else {
        successful := successful + 1;
      }
      return Answer(resp.value);
    }

    /** Books a pooled request: asleep, or concluded. */
    method Book(blocked: bool, connected: bool, resp: Option<Response>, ghost before: seq<Connection>,
                ghost total: int, ghost used: Option<Connection>, ghost pick: Option<ServerId>, ghost id: ConnId)
        returns (r: SendResult)
      requires blocked ==> !connected && resp.None?
      modifies this`successful, this`rateLimited, this`failed, this`asleep
      modifies this`connectionsOpened, this`connectionsClosed
      ensures Recorded(r, old(successful), old(rateLimited), old(failed), old(asleep))
      ensures Outcomes() == old(Outcomes()) + 1
      ensures r == if blocked then Asleep else if resp.None? then Failed else Answer(resp.value)
      ensures pool.Served(before, total, r.Asleep?, r.Answer?, used, pick, id)
           == old(pool.Served(before, total, blocked, resp.Some?, used, pick, id))
      ensures connectionsOpened == old(connectionsOpened) + if connected then 1 else 0
      ensures connectionsClosed == old(connectionsClosed) + if r.Answer? && r.resp.shouldClose then 1 else 0
      ensures pool.Valid() == old(pool.Valid()) && pool.Sound() == old(pool.Sound())
    {
      if blocked {
        asleep := asleep + 1;
        return Asleep;
      }
      r := Conclude(resp, if connected then 1 else 0, if resp.Some? && resp.value.shouldClose then 1 else 0);
    }

    /** An answer carries what the server's limiter said. */
    ghost predicate Tells(r: SendResult, check: Check) {
      r.Answer? ==> Answers(Some(r.resp), check)
    }

    /** One request through the pool. */
    method SendPooled(check: Check, pick: Option<ServerId>, id: ConnId)
        returns (r: SendResult, used: Option<Connection>)
      requires pool.Valid() && (pool.closed || pool.Unused(id))
      modifies this`successful, this`rateLimited, this`failed, this`asleep
      modifies this`connectionsOpened, this`connectionsClosed
      modifies pool`idle, pool`total, pool.idle, pool.transport.servers
      ensures pool.Valid() && Recorded(r, old(successful), old(rateLimited), old(failed), old(asleep))
      ensures Outcomes() == old(Outcomes()) + 1
      ensures Tells(r, check) && pool.total - |pool.idle| == old(pool.total - |pool.idle|)
      ensures old(pool.Sound()) && pool.LimitsFit() ==> pool.Sound()
      ensures pool.Served(old(pool.idle), old(pool.total), r.Asleep?, r.Answer?, used, pick, id)
      ensures forall i :: 0 <= i < |old(pool.idle)| ==>
                old(pool.idle)[i].requestCount
                == old(pool.idle[i].requestCount) + if used == Some(old(pool.idle)[i]) then 1 else 0
      ensures connectionsOpened == old(connectionsOpened) + if used.Some? then 1 else 0
      ensures connectionsClosed == old(connectionsClosed) + if r.Answer? && r.resp.shouldClose then 1 else 0
    {
      ghost var before, total := pool.idle, pool.total;
      var blocked, resp;
      blocked, used, resp := pool.UsePooled(pick, id, check);
      r := Book(blocked, used.Some?, resp, before, total, used, pick, id);
    }

    /** One request on a connection of its own: nothing is left of it afterwards. */
    method SendOneShot(check: Check, pick: Option<ServerId>, id: ConnId) returns (r: SendResult)
      requires pool.Valid() && pool.Unused(id)
      modifies this`successful, this`rateLimited, this`failed
      modifies this`connectionsOpened, this`connectionsClosed
      modifies pool.transport.servers
      ensures pool.Valid() && Recorded(r, old(successful), old(rateLimited), old(failed), old(asleep)) && !r.Asleep?
      ensures Outcomes() == old(Outcomes()) + 1
      ensures r.Answer? <==> pick.Some? && !pool.closed && pool.transport.Runs(pick.value)
      ensures Tells(r, check)
      ensures var made := if pick.Some? && !pool.closed then 1 else 0;
              connectionsOpened == old(connectionsOpened) + made && connectionsClosed == old(connectionsClosed) + made
      ensures pool.Unused(id) && (old(pool.Sound()) ==> pool.Sound())
    {
      var made, resp := pool.OneShot(pick, id, check);
      r := Conclude(resp, if made then 1 else 0, if made then 1 else 0);
    }

    /** Closes a worker's connection. */
    method DropWorker(c: Connection, ghost id: ConnId)
      requires pool.Valid() && pool.CheckedOut(c) && pool.Unused(id)
      modifies this`connectionsClosed, c, pool.transport.servers
      ensures pool.Valid() && pool.Unused(id) && (old(pool.Sound()) ==> pool.Sound())
      ensures c.closed && c.requestCount == old(c.requestCount)
      ensures forall sid :: pool.transport.Runs(sid) == old(pool.transport.Runs(sid))
      ensures connectionsClosed == old(connectionsClosed) + 1
    {
      connectionsClosed := connectionsClosed + 1;
      pool.Discard(c);
    }

    /** A worker's connection is replaced when it reached its limit. */
    method WorkerConnection(pick: Option<ServerId>, id: ConnId, worker: Option<Connection>)
        returns (c: Option<Connection>)
      requires pool.Valid() && pool.Unused(id)
      requires worker.Some? ==> pool.CheckedOut(worker.value)
      modifies this`connectionsOpened, this`connectionsClosed
      modifies (if worker.Some? then {worker.value} else {}), pool.transport.servers
      ensures pool.Valid() && (old(pool.Sound()) ==> pool.Sound())
      ensures c.Some? && c != worker ==> c.value.Agrees()
      ensures c.Some? && c == worker ==> old(worker.value.Agrees()) == c.value.Agrees()
      ensures c.Some? ==> pool.CheckedOut(c.value) && (c == worker || fresh(c.value))
      ensures c.None? ==> pick.None? || pool.closed
      ensures worker.Some? && !worker.value.ShouldClose() ==> c == worker
      ensures worker.Some? ==> worker.value.requestCount == old(worker.value.requestCount)
      ensures worker.Some? && worker.value.ShouldClose() ==> worker.value.closed
      ensures worker.Some? && !worker.value.ShouldClose() ==> worker.value.closed == old(worker.value.closed)
      ensures worker.None? || worker.value.ShouldClose() ==>
        && (c.Some? <==> pick.Some? && !pool.closed)
        && (c.Some? ==> fresh(c.value) && c.value.Usable() && c.value.requestCount == 0
                        && c.value.serverId == pick.value && c.value.id == id)
      ensures forall sid :: pool.transport.Runs(sid) == old(pool.transport.Runs(sid))
      ensures connectionsOpened == old(connectionsOpened) + if c.Some? && c != worker then 1 else 0
      ensures connectionsClosed == old(connectionsClosed) + if worker.Some? && c != worker then 1 else 0
    {
      if worker.Some? && !worker.value.ShouldClose() {
        return worker;
      }
      if worker.Some? {
        DropWorker(worker.value, id);
      }
      c := CreateDedicatedConnection(pick, id);
    }

    /** One request on a worker's connection. */
    method SendOnWorker(c: Connection, check: Check) returns (r: SendResult)
      requires pool.Valid() && pool.CheckedOut(c)
      modifies this`successful, this`rateLimited, this`failed
      modifies this`connectionsOpened, this`connectionsClosed
      modifies c, pool.transport.servers
      ensures pool.Valid() && pool.CheckedOut(c) && (old(pool.Sound()) ==> pool.Sound())
      ensures Recorded(r, old(successful), old(rateLimited), old(failed), asleep) && !r.Asleep? && Tells(r, check)
      ensures Outcomes() == old(Outcomes()) + 1
      ensures r.Answer? <==> !old(c.closed) && pool.transport.Runs(c.serverId)
      ensures c.requestCount == old(c.requestCount) + if old(c.closed) then 0 else 1
      ensures connectionsOpened == old(connectionsOpened)
      ensures connectionsClosed == old(connectionsClosed) + if c.closed then 1 else 0
      ensures c.closed <==> r.Failed? || (r.Answer? && r.resp.shouldClose)
      ensures old(c.Agrees()) && pool.LimitsFit() ==>
                (!c.closed ==> c.Agrees()) && (c.closed <==> r.Failed? || c.ShouldClose())
    {
      var resp := pool.SendAndKeep(c, check);
      r := Conclude(resp, 0, if resp.None? || resp.value.shouldClose then 1 else 0);
    }

    /** A worker's request goes out on its own connection below the limit; at the limit that one
        is closed, and without one a new one is made, if a server can be picked. `sent` and
        `gone` are the worker's connection's count and closed flag before. */
    ghost predicate OnWorker(worker: Option<Connection>, sent: int, gone: bool, answered: bool,
                             used: Option<Connection>, pick: Option<ServerId>)
      reads pool, pool.transport.servers
      reads if worker.Some? then {worker.value} else {}, if used.Some? then {used.value} else {}
    {
      if worker.Some? && sent < worker.value.maxRequests then
        && used == worker
        && (answered <==> !gone && pool.transport.Runs(worker.value.serverId))
        && worker.value.requestCount == sent + if gone then 0 else 1
      else
        && (worker.Some? ==> worker.value.closed)
        && (used.Some? <==> pick.Some? && !pool.closed)
        && (used.Some? ==> used != worker && used.value.serverId == pick.value && used.value.requestCount == 1)
        && (answered <==> used.Some? && pool.transport.Runs(pick.value))
    }

    /** One request on a worker's own connection, replaced first if it reached its limit and
        closed afterwards if it does so now or the request fails. */
    method SendDedicated(check: Check, pick: Option<ServerId>, id: ConnId, worker: Option<Connection>)
        returns (r: SendResult, used: Option<Connection>)
      requires pool.Valid() && pool.Unused(id)
      requires worker.Some? ==> pool.CheckedOut(worker.value)
      modifies this`successful, this`rateLimited, this`failed
      modifies this`connectionsOpened, this`connectionsClosed
      modifies (if worker.Some? then {worker.value} else {}), pool.transport.servers
      ensures pool.Valid() && Recorded(r, old(successful), old(rateLimited), old(failed), old(asleep)) && !r.Asleep?
      ensures Outcomes() == old(Outcomes()) + 1
      ensures used.Some? ==> pool.CheckedOut(used.value) && (used == worker || fresh(used.value))
      ensures used.Some? ==> (used.value.closed <==> r.Failed? || (r.Answer? && r.resp.shouldClose))
      ensures used.None? ==> r.Failed?
      ensures Tells(r, check)
      ensures OnWorker(worker, if worker.Some? then old(worker.value.requestCount) else 0,
                       worker.Some? && old(worker.value.closed), r.Answer?, used, pick)
      ensures old(pool.Sound()) ==> pool.Sound()
      ensures pool.LimitsFit() && (worker.Some? ==> old(worker.value.Agrees())) && used.Some? ==>
                && (!used.value.closed ==> used.value.Agrees())
                && (used.value.closed <==> r.Failed? || used.value.ShouldClose())
    {
      used := WorkerConnection(pick, id, worker);
      if used.None? {
        r := Conclude(None, 0, 0);
        return;
      }
      r := SendOnWorker(used.value, check);
    }

    /** Whether the current request goes through the pool. */
    method ChoosePool() returns (usePool: bool)
      ensures usePool <==> mode == Reuse || (mode == Hybrid && totalRequests % 10 != 0)
    {
      match mode
      case Reuse => usePool := true;
      case PerRequest => usePool := false;
      case Hybrid => usePool := totalRequests % 10 != 0;
      case Dedicated => usePool := false;
    }

    /** How a request went: on the worker's connection, through the pool, or on a connection of
        its own that is gone again; the last two of them leave the pool as it was. `before` and
        `total` are the pool's idle list and counter at the start, `sent` and `gone` the count
        and closed flag of the worker's connection. */
    ghost predicate Went(dedicated: bool, usePool: bool, before: seq<Connection>, total: int,
                         worker: Option<Connection>, sent: int, gone: bool,
                         r: SendResult, used: Option<Connection>, pick: Option<ServerId>, id: ConnId)
      reads pool, pool.idle, before, pool.transport.servers
      reads if worker.Some? then {worker.value} else {}, if used.Some? then {used.value} else {}
    {
      if usePool && !dedicated then
        pool.Served(before, total, r.Asleep?, r.Answer?, used, pick, id)
      else
        && pool.idle == before && pool.total == total && !r.Asleep?
        && if dedicated then
             OnWorker(worker, sent, gone, r.Answer?, used, pick) && (used.Some? ==> pool.CheckedOut(used.value))
           else
             pool.Unused(id) && (r.Answer? <==> pick.Some? && !pool.closed && pool.transport.Runs(pick.value))
    }

    /** A request of a client without dedicated connections. */
    method SendShared(usePool: bool, check: Check, pick: Option<ServerId>, id: ConnId)
        returns (r: SendResult, used: Option<Connection>)
      requires pool.Valid() && pool.Unused(id)
      modifies this`successful, this`rateLimited, this`failed, this`asleep
      modifies this`connectionsOpened, this`connectionsClosed
      modifies pool`idle, pool`total, pool.idle, pool.transport.servers
      ensures pool.Valid() && Recorded(r, old(successful), old(rateLimited), old(failed), old(asleep))
      ensures Outcomes() == old(Outcomes()) + 1
      ensures Tells(r, check) && pool.total - |pool.idle| == old(pool.total - |pool.idle|)
      ensures old(pool.Sound()) && pool.LimitsFit() ==> pool.Sound()
      ensures Went(false, usePool, old(pool.idle), old(pool.total), None, 0, false, r, used, pick, id)
      ensures forall i :: 0 <= i < |old(pool.idle)| ==>
                old(pool.idle)[i].requestCount
                == old(pool.idle[i].requestCount) + if used == Some(old(pool.idle)[i]) then 1 else 0
    {
      used := None;
      if usePool {
        r, used := SendPooled(check, pick, id);
      } else {
        r := SendOneShot(check, pick, id);
      }
    }

    /** The request counter. */
    method CountRequest()
      modifies this`totalRequests
      ensures totalRequests == old(totalRequests) + 1
      ensures pool.Valid() == old(pool.Valid()) && pool.Sound() == old(pool.Sound())
    {
      totalRequests := totalRequests + 1;
    }

    /** A request, already counted, by the mode. */
    method SendByMode(usePool: bool, check: Check, pick: Option<ServerId>, id: ConnId, worker: Option<Connection>)
        returns (r: SendResult, used: Option<Connection>)
      requires pool.Valid() && pool.Unused(id)
      requires worker.Some? ==> pool.CheckedOut(worker.value)
      modifies this`successful, this`rateLimited, this`failed, this`asleep
      modifies this`connectionsOpened, this`connectionsClosed
      modifies pool`idle, pool`total, pool.idle, pool.transport.servers
      modifies if worker.Some? then {worker.value} else {}
      ensures pool.Valid() && Recorded(r, old(successful), old(rateLimited), old(failed), old(asleep))
      ensures Outcomes() == old(Outcomes()) + 1
      ensures Tells(r, check) && pool.total - |pool.idle| == old(pool.total - |pool.idle|)
      ensures old(pool.Sound()) && pool.LimitsFit() ==> pool.Sound()
      ensures Went(mode == Dedicated, usePool, old(pool.idle), old(pool.total), worker,
                   if worker.Some? then old(worker.value.requestCount) else 0,
                   worker.Some? && old(worker.value.closed), r, used, pick, id)
      ensures mode != Dedicated ==> forall i :: 0 <= i < |old(pool.idle)| ==>
                old(pool.idle)[i].requestCount
                == old(pool.idle[i].requestCount) + if used == Some(old(pool.idle)[i]) then 1 else 0
    {
      if mode == Dedicated {
        r, used := SendDedicated(check, pick, id, worker);
      } else {
        r, used := SendShared(usePool, check, pick, id);
      }
    }

    /** A request of an open client: counted, then sent by the mode. */
    method SendOpen(check: Check, pick: Option<ServerId>, id: ConnId, worker: Option<Connection>)
        returns (r: SendResult, used: Option<Connection>, ghost usePool: bool)
      requires pool.Valid() && pool.Unused(id)
      requires worker.Some? ==> pool.CheckedOut(worker.value)
      modifies this`totalRequests, this`successful, this`rateLimited, this`failed, this`asleep
      modifies this`connectionsOpened, this`connectionsClosed
      modifies pool`idle, pool`total, pool.idle, pool.transport.servers
      modifies if worker.Some? then {worker.value} else {}
      ensures pool.Valid() && Recorded(r, old(successful), old(rateLimited), old(failed), old(asleep))
      ensures Outcomes() == old(Outcomes()) + 1 && totalRequests == old(totalRequests) + 1
      ensures usePool <==> mode == Reuse || (mode == Hybrid && totalRequests % 10 != 0)
      ensures Tells(r, check) && pool.total - |pool.idle| == old(pool.total - |pool.idle|)
      ensures old(pool.Sound()) && pool.LimitsFit() ==> pool.Sound()
      ensures Went(mode == Dedicated, usePool, old(pool.idle), old(pool.total), worker,
                   if worker.Some? then old(worker.value.requestCount) else 0,
                   worker.Some? && old(worker.value.closed), r, used, pick, id)
      ensures mode != Dedicated ==> forall i :: 0 <= i < |old(pool.idle)| ==>
                old(pool.idle)[i].requestCount
                == old(pool.idle[i].requestCount) + if used == Some(old(pool.idle)[i]) then 1 else 0
    {
      CountRequest();
      var pooled := ChoosePool();
      usePool := pooled;
      r, used := SendByMode(pooled, check, pick, id, worker);
    }

    /** Send: counts the request, then goes by the mode. Every request gets exactly one outcome
        and the answer its server's limiter gave; the pool's count of connections in use is the
        same before and after. Per-request and dedicated clients, and every tenth request of a
        hybrid one, leave the pool alone; all others go through it. */
    method Send(check: Check, pick: Option<ServerId>, id: ConnId, worker: Option<Connection>)
        returns (r: SendResult, used: Option<Connection>)
      requires Valid() && pool.Unused(id)
      requires worker.Some? ==> pool.CheckedOut(worker.value)
      modifies this, pool`idle, pool`total, pool.idle, pool.transport.servers
      modifies if worker.Some? then {worker.value} else {}
      ensures Valid() && mode == old(mode) && closed == old(closed)
      ensures closed ==> r.ClientClosed? && totalRequests == old(totalRequests)
                         && pool.idle == old(pool.idle) && pool.total == old(pool.total)
      ensures !closed ==> totalRequests == old(totalRequests) + 1 && !r.ClientClosed? && Tells(r, check)
                          && Recorded(r, old(successful), old(rateLimited), old(failed), old(asleep))
      ensures pool.total - |pool.idle| == old(pool.total - |pool.idle|)
      ensures !closed && (mode == PerRequest || mode == Dedicated || (mode == Hybrid && totalRequests % 10 == 0)) ==>
        pool.idle == old(pool.idle) && pool.total == old(pool.total) && !r.Asleep?
      ensures !closed && (mode == PerRequest || (mode == Hybrid && totalRequests % 10 == 0)) ==>
        pool.Unused(id) && (r.Answer? <==> pick.Some? && !pool.closed && pool.transport.Runs(pick.value))
      ensures !closed && (mode == Reuse || (mode == Hybrid && totalRequests % 10 != 0)) ==>
        pool.Served(old(pool.idle), old(pool.total), r.Asleep?, r.Answer?, used, pick, id)
      ensures mode != Dedicated ==> forall i :: 0 <= i < |old(pool.idle)| ==>
                old(pool.idle)[i].requestCount
                == old(pool.idle[i].requestCount) + if used == Some(old(pool.idle)[i]) then 1 else 0
      ensures !closed && mode == Dedicated ==>
        OnWorker(worker, if worker.Some? then old(worker.value.requestCount) else 0,
                 worker.Some? && old(worker.value.closed), r.Answer?, used, pick)
      ensures !closed && mode == Dedicated && used.Some? ==> pool.CheckedOut(used.value)
      ensures old(pool.Sound()) && pool.LimitsFit() ==> pool.Sound()
    {
      used := None;
      if closed {
        return ClientClosed, None;
      }
      ghost var usePool;
      r, used, usePool := SendOpen(check, pick, id, worker);
    }
  }
}
