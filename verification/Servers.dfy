/** The servers' side of connections: the connection table, its counters, and the transport
    that finds the server. Connection and server IDs are numbers; the original's strings
    matter only for being equal or not. */
module Servers {
  import opened Common

  type ConnId = nat
  type ServerId = nat

  /** A server's connection table (request count per open connection) and its statistics. */
  datatype Table = Table(counts: map<ConnId, int>, active: int, total: int, closed: int)

  const EMPTY: Table := Table(map[], 0, 0, 0)

  function Entry(t: Table, id: ConnId): Option<int> {
    if id in t.counts then Some(t.counts[id]) else None
  }

  /** getOrCreateConnection followed by the request count increment. */
  function Counted(t: Table, id: ConnId): Table {
    if id in t.counts then
      t.(counts := t.counts[id := t.counts[id] + 1])
    else
      t.(counts := t.counts[id := 1], active := t.active + 1, total := t.total + 1)
  }

  function CountOf(t: Table, id: ConnId): int {
    if id in t.counts then t.counts[id] else 0
  }

  /** CloseConnection: nothing happens when the connection is not in the table. */
  function Dropped(t: Table, id: ConnId): Table {
    if id in t.counts then
      t.(counts := t.counts - {id}, active := t.active - 1, closed := t.closed + 1)
    else t
  }

  /** The statistics describe the table. */
  ghost predicate StatsOk(t: Table) {
    t.active == |t.counts| && t.total - t.closed == t.active
  }

  lemma StatsKept(t: Table, id: ConnId)
    requires StatsOk(t)
    ensures StatsOk(Counted(t, id)) && StatsOk(Dropped(t, id))
    ensures Entry(Dropped(t, id), id) == None && Entry(Counted(t, id), id) == Some(CountOf(t, id) + 1)
    ensures forall other :: other != id ==>
              Entry(Dropped(t, id), other) == Entry(t, other) == Entry(Counted(t, id), other)
    ensures Counted(t, id).closed == t.closed && Counted(t, id).total == t.total + (if id in t.counts then 0 else 1)
    ensures Dropped(t, id).total == t.total && Dropped(t, id).closed == t.closed + (if id in t.counts then 1 else 0)
  {
    assert (t.counts - {id}).Keys == t.counts.Keys - {id};
    assert t.counts[id := 1].Keys == t.counts.Keys + {id};
    if id in t.counts {
      assert t.counts[id := t.counts[id] + 1].Keys == t.counts.Keys;
      assert |t.counts - {id}| == |t.counts.Keys - {id}|;
      assert |t.counts[id := t.counts[id] + 1]| == |t.counts|;
    } else {
      assert |t.counts[id := 1]| == |t.counts.Keys + {id}|;
    }
  }

  /** What the rate limiter of a server says about a request; NotAsked when there is no
      limiter or no key to limit by. */
  datatype Check = NotAsked | CheckFails | Permit | Deny

  datatype Response = Response(status: int, rateLimited: bool, shouldClose: bool)

  /** The status a request gets from the limiter's answer. */
  function StatusFor(check: Check): int {
    match check
    case NotAsked => 200
    case Permit => 200
    case CheckFails => 500
    case Deny => 429
  }

  class Server {
    const id: ServerId
    const maxRequests: int
    var running: bool
    var connections: map<ConnId, int>
    var totalRequests: int
    var successful: int
    var rateLimited: int
    var active: int
    var total: int
    var closed: int

    ghost function Contents(): Table
      reads this
    {
      Table(connections, active, total, closed)
    }

    ghost predicate Valid()
      reads this
    {
      maxRequests > 0 && StatsOk(Contents())
    }

    constructor (id: ServerId, maxRequests: int)
      ensures Valid() && !running && Contents() == EMPTY && this.id == id
      ensures this.maxRequests == if maxRequests <= 0 then 150 else maxRequests
      ensures totalRequests == successful == rateLimited == 0
    {
      this.id := id;
      this.maxRequests := if maxRequests <= 0 then 150 else maxRequests;
      running := false;
      connections := map[];
      totalRequests, successful, rateLimited := 0, 0, 0;
      active, total, closed := 0, 0, 0;
    }

    /** getOrCreateConnection and the count of one more request on the connection. */
    method CountRequest(connId: ConnId) returns (count: int)
      requires Valid()
      modifies this`connections, this`active, this`total
      ensures Valid() && Contents() == Counted(old(Contents()), connId) && count == CountOf(Contents(), connId)
      ensures connections == old(connections)[connId := count]
      ensures count == if connId in old(connections) then old(connections)[connId] + 1 else 1
    {
      StatsKept(Contents(), connId);
      if connId !in connections {
        connections := connections[connId := 0];
        total := total + 1;
        active := active + 1;
      }
      connections := connections[connId := connections[connId] + 1];
      count := connections[connId];
      assert connections == Counted(old(Contents()), connId).counts;
    }

    /** None when the server is not running; otherwise the request is counted on its
        connection whatever the limiter says. */
    method HandleRequest(connId: ConnId, check: Check) returns (resp: Option<Response>)
      requires Valid()
      modifies this
      ensures Valid() && running == old(running)
      ensures resp.None? <==> !running
      ensures resp.None? ==> Contents() == old(Contents()) && totalRequests == old(totalRequests)
      ensures resp.Some? ==>
        && connId in connections
        && resp.value.status == (if check.Deny? then 429 else if check.CheckFails? then 500 else 200)
        && resp.value.rateLimited == check.Deny? && (resp.value.shouldClose <==> connections[connId] >= maxRequests)
        && Contents() == Counted(old(Contents()), connId)
        && resp.value == Response(StatusFor(check), check.Deny?, CountOf(Contents(), connId) >= maxRequests)
        && totalRequests == old(totalRequests) + 1
        && successful == old(successful) + (if check.NotAsked? || check.Permit? then 1 else 0)
        && rateLimited == old(rateLimited) + (if check.Deny? then 1 else 0)
    {
      if !running {
        return None;
      }
      totalRequests := totalRequests + 1;
      var count := CountRequest(connId);
      var shouldClose := count >= maxRequests;
      if check.CheckFails? {
        return Some(Response(500, false, shouldClose));
      }
      if check.Deny? {
        rateLimited := rateLimited + 1;
        return Some(Response(429, true, shouldClose));
      }
      successful := successful + 1;
      return Some(Response(200, false, shouldClose));
    }

    method CloseConnection(connId: ConnId)
      requires Valid()
      modifies this
      ensures Valid() && running == old(running)
      ensures Contents() == Dropped(old(Contents()), connId)
      ensures connections == old(connections) - {connId} && total == old(total)
      ensures totalRequests == old(totalRequests) && successful == old(successful) && rateLimited == old(rateLimited)
    {
      StatsKept(Contents(), connId);
      if connId in connections {
        connections := connections - {connId};
        active := active - 1;
        closed := closed + 1;
      }
    }
  }

  /** simulatorTransport. */
  class Transport {
    const servers: seq<Server>

    ghost predicate Valid()
      reads servers
    {
      && (forall i :: 0 <= i < |servers| ==> servers[i].Valid())
      && (forall i, j :: 0 <= i < j < |servers| ==> servers[i].id != servers[j].id && servers[i] != servers[j])
    }

    constructor (servers: seq<Server>)
      ensures this.servers == servers
    {
      this.servers := servers;
    }

    /** The server with this ID, if any. */
    method Find(serverId: ServerId) returns (found: Option<nat>)
      ensures found.Some? ==> found.value < |servers| && servers[found.value].id == serverId
      ensures found.None? ==> forall i :: 0 <= i < |servers| ==> servers[i].id != serverId
    {
      for i := 0 to |servers|
        invariant forall j :: 0 <= j < i ==> servers[j].id != serverId
      {
        if servers[i].id == serverId {
          return Some(i);
        }
      }
      return None;
    }

    /** There is a running server with this ID. */
    ghost predicate Runs(serverId: ServerId)
      reads servers
    {
      exists i :: 0 <= i < |servers| && servers[i].id == serverId && servers[i].running
    }

    /** One request at the server found for it; at the limit the server drops the connection. */
    method Exchange(server: Server, connId: ConnId, check: Check) returns (resp: Option<Response>)
      requires server.Valid()
      modifies server
      ensures server.Valid() && server.running == old(server.running)
      ensures resp.None? <==> !server.running
      ensures resp.None? ==> server.Contents() == old(server.Contents())
      ensures resp.Some? ==>
        && server.Contents() == (if resp.value.shouldClose then Dropped(Counted(old(server.Contents()), connId), connId)
                                 else Counted(old(server.Contents()), connId))
        && resp.value == Response(StatusFor(check), check.Deny?,
                                  CountOf(old(server.Contents()), connId) + 1 >= server.maxRequests)
    {
      resp := server.HandleRequest(connId, check);
      if resp.Some? && resp.value.shouldClose {
        server.CloseConnection(connId);
      }
    }

    /** The request is handled by its server; None when there is no such server or it is not running. */
    method Send(serverId: ServerId, connId: ConnId, check: Check) returns (resp: Option<Response>)
      requires Valid()
      modifies servers
      ensures Valid() && forall i :: 0 <= i < |servers| ==> servers[i].running == old(servers[i].running)
      ensures resp.None? <==> forall i :: 0 <= i < |servers| ==> servers[i].id != serverId || !servers[i].running
      ensures resp.Some? <==> Runs(serverId)
      ensures resp.None? ==> forall i :: 0 <= i < |servers| ==> servers[i].Contents() == old(servers[i].Contents())
      ensures resp.Some? ==> forall i :: 0 <= i < |servers| ==>
        servers[i].Contents() ==
          if servers[i].id != serverId then old(servers[i].Contents())
          else if resp.value.shouldClose then Dropped(Counted(old(servers[i].Contents()), connId), connId)
          else Counted(old(servers[i].Contents()), connId)
      ensures resp.Some? ==> forall i :: 0 <= i < |servers| && servers[i].id == serverId ==>
        resp.value == Response(StatusFor(check), check.Deny?,
                               CountOf(old(servers[i].Contents()), connId) + 1 >= servers[i].maxRequests)
    {
      var target := Find(serverId);
      if target.None? {
        return None;
      }
      resp := Exchange(servers[target.value], connId, check);
    }

    method CloseConnection(serverId: ServerId, connId: ConnId)
      requires Valid()
      modifies servers
      ensures Valid() && forall i :: 0 <= i < |servers| ==> servers[i].running == old(servers[i].running)
      ensures forall i :: 0 <= i < |servers| ==>
        servers[i].Contents() == if servers[i].id == serverId then Dropped(old(servers[i].Contents()), connId)
                              else old(servers[i].Contents())
    {
      var target := Find(serverId);
      if target.Some? {
        servers[target.value].CloseConnection(connId);
      }
    }
  }
}
