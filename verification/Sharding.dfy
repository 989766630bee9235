/** Per-key limiter state spread over shards, and its refinement of one flat map. */
module Sharding {
  import opened Common
  import opened Limiters
  import opened Hash

  type Shard = map<Key, KeyState>

  type Store = s: seq<Shard> | |s| > 0 witness [map[]]

  datatype Op = AllowN(key: Key, now: int, n: int) | Reset(key: Key)

  function EventOf(op: Op): Event {
    match op
    case AllowN(_, now, n) => Call(now, n)
    case Reset(_) => Clear
  }

  function Find(m: Shard, key: Key): Option<KeyState> {
    if key in m then Some(m[key]) else None
  }

  /** Store a key's state, or delete the key. */
  function Put(m: Shard, key: Key, st: Option<KeyState>): Shard {
    if st.Some? then m[key := st.value] else m - {key}
  }

  // ----- the sharded store -----

  function Lookup(store: Store, key: Key): Option<KeyState> {
    Find(store[ShardIndex(key, |store|)], key)
  }

  /** The store after one operation: only the key's own shard changes. */
  function StoreAfter(p: Policy, store: Store, op: Op): (next: Store)
    ensures |next| == |store|
  {
    var i := ShardIndex(op.key, |store|);
    store[i := Put(store[i], op.key, NextState(p, Lookup(store, op.key), EventOf(op)))]
  }

  function StoreReply(p: Policy, store: Store, op: Op): Reply {
    ReplyTo(p, Lookup(store, op.key), EventOf(op))
  }

  function RunStore(p: Policy, store: Store, ops: seq<Op>): (replies: seq<Reply>)
    ensures |replies| == |ops|
    decreases |ops|
  {
    if ops == [] then []
    else [StoreReply(p, store, ops[0])] + RunStore(p, StoreAfter(p, store, ops[0]), ops[1..])
  }

  function FinalStore(p: Policy, store: Store, ops: seq<Op>): Store
    decreases |ops|
  {
    if ops == [] then store else FinalStore(p, StoreAfter(p, store, ops[0]), ops[1..])
  }

  /** newBaseLimiter's shards: a non-positive count means 256. */
  function EmptyStore(shards: int): (s: Store)
    ensures |s| == if shards > 0 then shards else 256
    ensures forall i :: 0 <= i < |s| ==> s[i] == map[]
  {
    seq(if shards > 0 then shards else 256, _ => map[])
  }

  /** Every key lives only in the shard its hash selects. */
  ghost predicate Homed(store: Store) {
    forall i, key :: 0 <= i < |store| && key in store[i] ==> ShardIndex(key, |store|) == i
  }

  // ----- one flat map -----

  function FlatAfter(p: Policy, m: Shard, op: Op): Shard {
    Put(m, op.key, NextState(p, Find(m, op.key), EventOf(op)))
  }

  function RunFlat(p: Policy, m: Shard, ops: seq<Op>): (replies: seq<Reply>)
    ensures |replies| == |ops|
    decreases |ops|
  {
    if ops == [] then []
    else [ReplyTo(p, Find(m, ops[0].key), EventOf(ops[0]))] + RunFlat(p, FlatAfter(p, m, ops[0]), ops[1..])
  }

  // ----- sharding refines the flat map -----

  ghost predicate Represents(store: Store, m: Shard) {
    && Homed(store)
    && forall key :: Lookup(store, key) == Find(m, key)
  }

  lemma {:induction false} StepRepresents(p: Policy, store: Store, m: Shard, op: Op)
    requires Represents(store, m)
    ensures StoreReply(p, store, op) == ReplyTo(p, Find(m, op.key), EventOf(op))
    ensures Represents(StoreAfter(p, store, op), FlatAfter(p, m, op))
  {
    var next, m' := StoreAfter(p, store, op), FlatAfter(p, m, op);
    assert Lookup(store, op.key) == Find(m, op.key);
    forall key ensures Lookup(next, key) == Find(m', key) {
      assert Lookup(store, key) == Find(m, key);
      if key != op.key {
        assert Find(next[ShardIndex(key, |next|)], key) == Find(store[ShardIndex(key, |store|)], key);
      }
    }
  }

  lemma {:induction false} RunsRepresent(p: Policy, store: Store, m: Shard, ops: seq<Op>)
    requires Represents(store, m)
    ensures RunStore(p, store, ops) == RunFlat(p, m, ops)
    ensures Homed(FinalStore(p, store, ops))
    decreases |ops|
  {
    if ops != [] {
      StepRepresents(p, store, m, ops[0]);
      RunsRepresent(p, StoreAfter(p, store, ops[0]), FlatAfter(p, m, ops[0]), ops[1..]);
    }
  }

  /** Every history over any keys gets the same answers from any number of shards as from one
      flat map, and afterwards each key is stored only in the shard of its hash. */
  lemma {:induction false} ShardingRefinesFlatMap(p: Policy, shards: int, ops: seq<Op>)
    ensures RunStore(p, EmptyStore(shards), ops) == RunFlat(p, map[], ops)
    ensures Homed(FinalStore(p, EmptyStore(shards), ops))
  {
    RunsRepresent(p, EmptyStore(shards), map[], ops);
  }

  // ----- keys do not interfere -----

  /** The events of one key, in order. */
  function EventsOf(ops: seq<Op>, key: Key): seq<Event> {
    if ops == [] then []
    else (if ops[0].key == key then [EventOf(ops[0])] else []) + EventsOf(ops[1..], key)
  }

  /** The replies given to one key, in order. */
  function RepliesOf(ops: seq<Op>, replies: seq<Reply>, key: Key): seq<Reply>
    requires |ops| == |replies|
  {
    if ops == [] then []
    else (if ops[0].key == key then [replies[0]] else []) + RepliesOf(ops[1..], replies[1..], key)
  }

  lemma {:induction false} FlatRunProjects(p: Policy, m: Shard, ops: seq<Op>, key: Key)
    ensures RepliesOf(ops, RunFlat(p, m, ops), key) == Run(p, Find(m, key), EventsOf(ops, key))
    decreases |ops|
  {
    if ops != [] {
      var m' := FlatAfter(p, m, ops[0]);
      FlatRunProjects(p, m', ops[1..], key);
      assert RunFlat(p, m, ops)[1..] == RunFlat(p, m', ops[1..]);
      if ops[0].key == key {
        var events := EventsOf(ops, key);
        assert events[0] == EventOf(ops[0]) && events[1..] == EventsOf(ops[1..], key);
      } else {
        assert EventsOf(ops, key) == EventsOf(ops[1..], key);
      }
    }
  }

  /** In any multi-key history, on any number of shards, what a key is told depends only on
      that key's own calls and resets: it is the run of those alone. */
  lemma {:induction false} KeysDoNotInterfere(p: Policy, shards: int, ops: seq<Op>, key: Key)
    ensures RepliesOf(ops, RunStore(p, EmptyStore(shards), ops), key) == Run(p, None, EventsOf(ops, key))
  {
    ShardingRefinesFlatMap(p, shards, ops);
    FlatRunProjects(p, map[], ops, key);
  }
}
