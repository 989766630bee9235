/** Round-robin and weighted server selection. The turn counter is a uint64 and wraps. */
module Balancer {
  import opened Common

  datatype Info = Info(id: nat, weight: int, healthy: bool)

  const WRAP: int := 0x1_0000_0000_0000_0000

  /** The counter after one atomic increment. */
  function Incremented(c: int): int {
    if c + 1 == WRAP then 0 else c + 1
  }

  // ----- what one pick selects -----

  /** The healthy servers, in order. */
  function Healthy(servers: seq<Info>): seq<Info> {
    if servers == [] then []
    else
      var last := servers[|servers| - 1];
      Healthy(servers[..|servers| - 1]) + if last.healthy then [last] else []
  }

  /** Wherever the list of servers is cut, the healthy ones of the first part come first; and a
      server alone is offered exactly if it is healthy. So they are in registration order. */
  lemma {:induction false} HealthyInOrder(a: seq<Info>, b: seq<Info>, s: Info)
    ensures Healthy(a + b) == Healthy(a) + Healthy(b)
    ensures Healthy([s]) == if s.healthy then [s] else []
    decreases b
  {
    assert [s][..0] == [];
    if b == [] {
      assert a + b == a;
    } else {
      var n := |b| - 1;
      HealthyInOrder(a, b[..n], s);
      assert (a + b)[..|a| + n] == a + b[..n];
    }
  }

  /** A server is offered exactly if it is registered and healthy. */
  lemma {:induction false} HealthyMembers(servers: seq<Info>, s: Info)
    ensures s in Healthy(servers) <==> s in servers && s.healthy
  {
    if servers != [] {
      var n := |servers| - 1;
      HealthyMembers(servers[..n], s);
      assert servers == servers[..n] + [servers[n]];
    }
  }

  /** A weight that is not positive counts as one. */
  function Weight(s: Info): (w: int)
    ensures w >= 1
  {
    if s.weight <= 0 then 1 else s.weight
  }

  function TotalWeight(servers: seq<Info>): (w: int)
    ensures w >= |servers|
  {
    if servers == [] then 0 else Weight(servers[0]) + TotalWeight(servers[1..])
  }

  /** The weights of the servers before index `i`. */
  function WeightBefore(servers: seq<Info>, i: nat): int
    requires i <= |servers|
  {
    if i == 0 then 0 else WeightBefore(servers, i - 1) + Weight(servers[i - 1])
  }

  lemma {:induction false} TotalIsWeightBefore(servers: seq<Info>, i: nat)
    requires i <= |servers|
    ensures TotalWeight(servers) == WeightBefore(servers, i) + TotalWeight(servers[i..])
  {
    if i == 0 {
      assert servers[0..] == servers;
    } else {
      TotalIsWeightBefore(servers, i - 1);
      assert servers[i - 1..][1..] == servers[i..];
    }
  }

  lemma {:induction false} WeightsIncrease(servers: seq<Info>, i: nat, j: nat)
    requires i <= j <= |servers|
    ensures WeightBefore(servers, i) + (j - i) <= WeightBefore(servers, j)
    decreases j
  {
    if i < j { WeightsIncrease(servers, i, j - 1); }
  }

  /** Turn `pick` of a cycle belongs to server `i`: its share of the cycle starts after the
      weights before it. */
  predicate Owns(servers: seq<Info>, i: nat, pick: int)
    requires i < |servers|
  {
    WeightBefore(servers, i) <= pick < WeightBefore(servers, i) + Weight(servers[i])
  }

  /** Every turn of the cycle belongs to exactly one server. */
  lemma {:induction false} OneOwner(servers: seq<Info>, pick: int, i: nat, j: nat)
    requires i < j < |servers|
    ensures !(Owns(servers, i, pick) && Owns(servers, j, pick))
  {
    WeightsIncrease(servers, i + 1, j);
  }

  class BaseBalancer {
    var servers: seq<Info>

    constructor ()
      ensures servers == []
    {
      servers := [];
    }

    /** getHealthyServers: the healthy servers in registration order. */
    method GetHealthyServers() returns (healthy: seq<Info>)
      ensures healthy == Healthy(servers)
    {
      healthy := [];
      for i := 0 to |servers|
        invariant healthy == Healthy(servers[..i])
      {
        assert servers[..i + 1][..i] == servers[..i];
        if servers[i].healthy {
          healthy := healthy + [servers[i]];
        }
      }
      assert servers[..|servers|] == servers;
    }

    /** RegisterServer: refused when the ID is taken, else appended as healthy. */
    method RegisterServer(s: Info) returns (ok: bool)
      modifies this
      ensures ok <==> forall i :: 0 <= i < |old(servers)| ==> old(servers)[i].id != s.id
      ensures servers == if ok then old(servers) + [s.(healthy := true)] else old(servers)
    {
      for i := 0 to |servers|
        invariant servers == old(servers)
        invariant forall j :: 0 <= j < i ==> servers[j].id != s.id
      {
        if servers[i].id == s.id {
          return false;
        }
      }
      servers := servers + [s.(healthy := true)];
      return true;
    }

    /** MarkHealthy and MarkUnhealthy: the first server with this ID, if any. */
    method Mark(id: nat, healthy: bool)
      modifies this
      ensures |servers| == |old(servers)|
      ensures forall i :: 0 <= i < |servers| ==>
        servers[i] == if old(servers)[i].id == id && (forall j :: 0 <= j < i ==> old(servers)[j].id != id)
                      then old(servers)[i].(healthy := healthy) else old(servers)[i]
    {
      for i := 0 to |servers|
        invariant servers == old(servers)
        invariant forall j :: 0 <= j < i ==> servers[j].id != id
      {
        if servers[i].id == id {
          servers := servers[i := servers[i].(healthy := healthy)];
          return;
        }
      }
    }
  }

  class RoundRobin {
    const base: BaseBalancer
    var current: int

    ghost predicate Valid()
      reads this
    {
      0 <= current < WRAP
    }

    constructor ()
      ensures Valid() && fresh(base) && base.servers == [] && current == 0
    {
      base := new BaseBalancer();
      current := 0;
    }

    /** None when no server is healthy; the counter then stays. */
    method PickServer() returns (s: Option<Info>)
      requires Valid()
      modifies this
      ensures Valid()
      ensures var h := Healthy(base.servers);
              if h == [] then s == None && current == old(current)
              else s == Some(h[old(current) % |h|]) && current == Incremented(old(current))
      ensures Healthy(base.servers) != [] ==> current == (old(current) + 1) % 0x1_0000_0000_0000_0000
    {
      var servers := base.GetHealthyServers();
      if |servers| == 0 {
        return None;
      }
      var idx := current;
      current := Incremented(current);
      return Some(servers[idx % |servers|]);
    }
  }

  class Weighted {
    const base: BaseBalancer
    var current: int

    ghost predicate Valid()
      reads this
    {
      0 <= current < WRAP
    }

    constructor ()
      ensures Valid() && fresh(base) && base.servers == [] && current == 0
    {
      base := new BaseBalancer();
      current := 0;
    }

    /** The healthy server that owns this turn of the cycle. The loop always finds it: the
        fallback to the first server after the loop cannot be reached. */
    method PickServer() returns (s: Option<Info>, ghost index: nat)
      requires Valid()
      modifies this
      ensures Valid()
      ensures var h := Healthy(base.servers);
              if h == [] then s == None && current == old(current)
              else index < |h| && s == Some(h[index]) && Owns(h, index, old(current) % TotalWeight(h))
                   && current == Incremented(old(current))
      ensures Healthy(base.servers) != [] ==> current == (old(current) + 1) % 0x1_0000_0000_0000_0000
    {
      var servers := base.GetHealthyServers();
      if |servers| == 0 {
        return None, 0;
      }
      var totalWeight := 0;
      for i := 0 to |servers|
        invariant totalWeight == WeightBefore(servers, i)
      {
        totalWeight := totalWeight + Weight(servers[i]);
      }
      TotalIsWeightBefore(servers, |servers|);
      assert servers[|servers|..] == [];
      var idx := current;
      current := Incremented(current);
      var pick := idx % totalWeight;
      s, index := None, 0;
      for i := 0 to |servers|
        invariant pick == idx % totalWeight - WeightBefore(servers, i) && pick >= 0
      {
        pick := pick - Weight(servers[i]);
        if pick < 0 {
          return Some(servers[i]), i;
        }
      }
      assert false;
    }
  }

  // ----- fairness -----

  /** How many of the `l` instants from `c` on fall, modulo `w`, into the share [lo, lo + n). */
  function Hits(w: int, lo: int, n: int, c: int, l: nat): nat
    requires w > 0
  {
    if l == 0 then 0
    else Hits(w, lo, n, c, l - 1) + if lo <= (c + l - 1) % w < lo + n then 1 else 0
  }

  lemma {:induction false} HitsSplit(w: int, lo: int, n: int, c: int, a: nat, b: nat)
    requires w > 0
    ensures Hits(w, lo, n, c, a + b) == Hits(w, lo, n, c, a) + Hits(w, lo, n, c + a, b)
    decreases b
  {
    if b > 0 { HitsSplit(w, lo, n, c, a, b - 1); }
  }

  lemma HitsFirst(w: int, lo: int, n: int, c: int, l: nat)
    requires w > 0 && l > 0
    ensures Hits(w, lo, n, c, l) == (if lo <= c % w < lo + n then 1 else 0) + Hits(w, lo, n, c + 1, l - 1)
  {
    HitsSplit(w, lo, n, c, 1, l - 1);
    assert Hits(w, lo, n, c, 1) == Hits(w, lo, n, c, 0) + if lo <= (c + 1 - 1) % w < lo + n then 1 else 0;
  }

  lemma {:induction false} FirstCycle(w: int, lo: int, n: int, l: nat)
    requires w > 0 && 0 <= lo && 0 <= n && lo + n <= w && l <= w
    ensures Hits(w, lo, n, 0, l) == if l <= lo then 0 else if l <= lo + n then l - lo else n
  {
    if l > 0 {
      FirstCycle(w, lo, n, l - 1);
      ResidueUnique(l - 1, 0, l - 1, w);
    }
  }

  lemma SameResidue(c: int, w: int)
    requires w > 0
    ensures (c + w) % w == c % w
  {
    var q, r := c / w, c % w;
    assert c + w == (q + 1) * w + r;
    ResidueUnique(c + w, q + 1, r, w);
  }

  lemma ResidueUnique(x: int, q: int, r: int, w: int)
    requires w > 0 && 0 <= r < w && x == q * w + r
    ensures x % w == r && x / w == q
  {
    var q', r' := x / w, x % w;
    assert (q - q') * w == r' - r;
    if q > q' { ProductMonotonic(1, q - q', w); }
    if q < q' { ProductMonotonic(q - q', -1, w); }
  }

  /** Any full cycle, wherever it starts, gives a share exactly its size. */
  lemma {:induction false} FullCycle(w: int, lo: int, n: int, c: nat)
    requires w > 0 && 0 <= lo && 0 <= n && lo + n <= w
    ensures Hits(w, lo, n, c, w) == n
    decreases c
  {
    if c == 0 {
      FirstCycle(w, lo, n, w);
    } else {
      FullCycle(w, lo, n, c - 1);
      HitsSplit(w, lo, n, c - 1, 1, w - 1);
      HitsSplit(w, lo, n, c, w - 1, 1);
      SameResidue(c - 1, w);
      assert Hits(w, lo, n, c - 1, 1) == if lo <= (c - 1) % w < lo + n then 1 else 0;
      assert Hits(w, lo, n, c + w - 1, 1) == if lo <= (c - 1 + w) % w < lo + n then 1 else 0;
    }
  }

  function Min(a: int, b: int): int { if a <= b then a else b }

  lemma {:induction false} PartOfACycle(w: int, lo: int, n: int, c: nat, r: nat)
    requires w > 0 && 0 <= lo && 0 <= n && lo + n <= w && r <= w
    ensures Hits(w, lo, n, c, r) <= Min(n, r)
  {
    FullCycle(w, lo, n, c);
    HitsSplit(w, lo, n, c, r, w - r);
    HitsAtMost(w, lo, n, c, r);
  }

  lemma {:induction false} HitsAtMost(w: int, lo: int, n: int, c: int, l: nat)
    requires w > 0
    ensures Hits(w, lo, n, c, l) <= l
  {
    if l > 0 { HitsAtMost(w, lo, n, c, l - 1); }
  }

  lemma {:induction false} ManyCycles(w: int, lo: int, n: int, c: nat, q: nat, r: nat)
    requires w > 0 && 0 <= lo && 0 <= n && lo + n <= w && r <= w
    ensures q * n <= Hits(w, lo, n, c, q * w + r) <= q * n + Min(n, r)
    decreases q
  {
    if q == 0 {
      PartOfACycle(w, lo, n, c, r);
      assert q * n == 0 && q * w == 0;
    } else {
      ManyCycles(w, lo, n, c + w, q - 1, r);
      FullCycle(w, lo, n, c);
      assert q * w == w + (q - 1) * w && q * n == n + (q - 1) * n;
      ProductNonNegative(q - 1, w);
      HitsSplit(w, lo, n, c, w, (q - 1) * w + r);
    }
  }

  /** How many of `l` consecutive picks go to healthy server `i`, with the counter at `c` and
      wrapping as a uint64 does. */
  function Turns(servers: seq<Info>, i: nat, c: int, l: nat): nat
    requires i < |servers| && 0 <= c < WRAP
    decreases l
  {
    if l == 0 then 0
    else (if Owns(servers, i, c % TotalWeight(servers)) then 1 else 0) + Turns(servers, i, Incremented(c), l - 1)
  }

  /** A wrap between picks goes unnoticed when the cycle length divides 2^64. */
  lemma {:induction false} TurnsAreHits(servers: seq<Info>, i: nat, c: int, l: nat)
    requires i < |servers| && 0 <= c < WRAP
    requires c + l <= WRAP || WRAP % TotalWeight(servers) == 0
    ensures Turns(servers, i, c, l)
         == Hits(TotalWeight(servers), WeightBefore(servers, i), Weight(servers[i]), c, l)
    decreases l
  {
    var w, lo, n := TotalWeight(servers), WeightBefore(servers, i), Weight(servers[i]);
    if l > 0 {
      HitsFirst(w, lo, n, c, l);
      if c + 1 < WRAP {
        TurnsAreHits(servers, i, c + 1, l - 1);
      } else if l > 1 {
        TurnsAreHits(servers, i, 0, l - 1);
        WrapGoesUnnoticed(w, lo, n, l - 1);
      }
    }
  }

  lemma {:induction false} ShiftByCycles(w: int, lo: int, n: int, c: int, q: nat, l: nat)
    requires w > 0
    ensures Hits(w, lo, n, c + q * w, l) == Hits(w, lo, n, c, l)
    decreases l
  {
    if l > 0 {
      ShiftByCycles(w, lo, n, c, q, l - 1);
      var x := c + l - 1;
      ResidueUnique(x + q * w, x / w + q, x % w, w);
    }
  }

  lemma {:induction false} WrapGoesUnnoticed(w: int, lo: int, n: int, l: nat)
    requires w > 0 && WRAP % w == 0
    ensures Hits(w, lo, n, WRAP, l) == Hits(w, lo, n, 0, l)
  {
    ShiftByCycles(w, lo, n, 0, WRAP / w, l);
    assert (WRAP / w) * w == WRAP;
  }

  lemma {:induction false} CycleBounds(w: int, lo: int, n: int, c: nat, l: nat)
    requires w > 0 && 0 <= lo && 0 <= n && lo + n <= w
    ensures (l / w) * n <= Hits(w, lo, n, c, l) <= (l / w) * n + Min(n, l % w)
  {
    var q, r := l / w, l % w;
    assert q >= 0 && l == q * w + r;
    ManyCycles(w, lo, n, c, q, r);
  }

  /** Of the `l` picks from counter `c` on, server `i` gets its weight once per full cycle of
      the total weight, and in the rest at most its weight again and at most one turn a pick. */
  predicate Fair(servers: seq<Info>, i: nat, c: int, l: nat)
    requires i < |servers| && 0 <= c < WRAP
  {
    var w, n := TotalWeight(servers), Weight(servers[i]);
    (l / w) * n <= Turns(servers, i, c, l) <= (l / w) * n + Min(n, l % w)
  }

  lemma ShareInCycle(servers: seq<Info>, i: nat)
    requires i < |servers|
    ensures WeightBefore(servers, i) + Weight(servers[i]) <= TotalWeight(servers) && WeightBefore(servers, i) >= 0
    ensures |servers| > 1 ==> Weight(servers[i]) < TotalWeight(servers)
  {
    TotalIsWeightBefore(servers, i + 1);
    WeightsIncrease(servers, 0, i);
    if i == 0 && |servers| > 1 { assert Weight(servers[1]) >= 1 && servers[1..] != []; }
    if i > 0 { WeightsIncrease(servers, 0, 1); }
  }

  /** Fairness of every stretch over a fixed healthy list, provided the counter does not wrap
      in the stretch or the total weight divides 2^64. */
  lemma {:induction false} WeightedFairness(servers: seq<Info>, i: nat, c: int, l: nat)
    requires i < |servers| && 0 <= c < WRAP
    requires c + l <= WRAP || WRAP % TotalWeight(servers) == 0
    ensures Fair(servers, i, c, l)
  {
    ShareInCycle(servers, i);
    TurnsAreHits(servers, i, c, l);
    CycleBounds(TotalWeight(servers), WeightBefore(servers, i), Weight(servers[i]), c, l);
  }

  /** The picks of a stretch up to the counter's wrap and those after it. */
  lemma {:induction false} TurnsAcrossWrap(servers: seq<Info>, i: nat, c: int, l: nat)
    requires i < |servers| && 0 <= c < WRAP <= c + l
    ensures var w, lo, n := TotalWeight(servers), WeightBefore(servers, i), Weight(servers[i]);
            Turns(servers, i, c, l) == Hits(w, lo, n, c, WRAP - c) + Turns(servers, i, 0, c + l - WRAP)
    decreases l
  {
    HitsFirst(TotalWeight(servers), WeightBefore(servers, i), Weight(servers[i]), c, WRAP - c);
    if c + 1 < WRAP {
      TurnsAcrossWrap(servers, i, c + 1, l - 1);
    }
  }

  /** A server that is alone gets every turn. */
  lemma {:induction false} AloneGetsAll(servers: seq<Info>, c: int, l: nat)
    requires |servers| == 1 && 0 <= c < WRAP
    ensures Turns(servers, 0, c, l) == l
    decreases l
  {
    if l > 0 {
      assert TotalWeight(servers) == Weight(servers[0]);
      AloneGetsAll(servers, Incremented(c), l - 1);
    }
  }

  lemma {:induction false} AloneIsFair(servers: seq<Info>, c: int, l: nat)
    requires |servers| == 1 && 0 <= c < WRAP
    ensures Fair(servers, 0, c, l)
  {
    var w := Weight(servers[0]);
    assert TotalWeight(servers) == w;
    AloneGetsAll(servers, c, l);
    assert l == (l / w) * w + l % w;
  }

  /** The first server's turns in the incomplete cycle before the wrap. */
  lemma {:induction false} LastIncompleteCycle(w: int, n: int)
    requires 0 <= n <= w <= WRAP && w > 0
    ensures Hits(w, 0, n, WRAP - WRAP % w, WRAP % w) == Min(n, WRAP % w)
  {
    var q, r := WRAP / w, WRAP % w;
    assert WRAP - r == 0 + q * w;
    ShiftByCycles(w, 0, n, 0, q, r);
    FirstCycle(w, 0, n, r);
  }

  /** The unfair stretch: one cycle's worth of picks that starts with the incomplete cycle
      before the wrap. The first server has its turns there and again right after the wrap. */
  lemma {:induction false} WrapRepeatsFirstServer(servers: seq<Info>, w: int, r: int)
    requires |servers| > 1 && w == TotalWeight(servers) <= WRAP && r == WRAP % w != 0
    ensures Turns(servers, 0, WRAP - r, w) > Weight(servers[0])
    ensures !Fair(servers, 0, WRAP - r, w)
  {
    var n := Weight(servers[0]);
    ShareInCycle(servers, 0);
    TurnsAcrossWrap(servers, 0, WRAP - r, w);
    LastIncompleteCycle(w, n);
    TurnsAreHits(servers, 0, 0, w - r);
    FirstCycle(w, 0, n, w - r);
    ResidueUnique(w, 1, 0, w);
  }

  /** Every stretch of picks is fair, across the wraps of the counter too, exactly when only one
      server is healthy or the total weight divides 2^64. */
  lemma {:induction false} FairnessIffCycleFits(servers: seq<Info>)
    requires servers != [] && TotalWeight(servers) <= WRAP
    ensures (forall i: nat, c, l: nat :: i < |servers| && 0 <= c < WRAP ==> Fair(servers, i, c, l))
            <==> |servers| == 1 || WRAP % TotalWeight(servers) == 0
  {
    if |servers| == 1 || WRAP % TotalWeight(servers) == 0 {
      forall i: nat, c, l: nat | i < |servers| && 0 <= c < WRAP ensures Fair(servers, i, c, l) {
        if |servers| == 1 { AloneIsFair(servers, c, l); } else { WeightedFairness(servers, i, c, l); }
      }
    } else {
      var w := TotalWeight(servers);
      WrapRepeatsFirstServer(servers, w, WRAP % w);
    }
  }

  // ----- in the configured weights -----

  /** A cycle is as long as the configured weights, those that are not positive counting one,
      add up to: the length is additive and that of a single server is its own share. */
  lemma {:induction false} CycleLengthAdds(a: seq<Info>, b: seq<Info>, s: Info)
    ensures TotalWeight(a + b) == TotalWeight(a) + TotalWeight(b)
    ensures TotalWeight([s]) == if s.weight > 0 then s.weight else 1
    decreases a
  {
    assert [s][1..] == [];
    if a == [] {
      assert a + b == b;
    } else {
      CycleLengthAdds(a[1..], b, s);
      assert (a + b)[1..] == a[1..] + b;
    }
  }

  /** Over whole cycles that do not meet a wrap, or over any if the cycle divides 2^64, a server
      with a positive configured weight is picked exactly that often per cycle, and any other
      exactly once. */
  lemma {:induction false} ConfiguredShares(servers: seq<Info>, i: nat, c: int, cycles: nat)
    requires i < |servers| && 0 <= c < WRAP
    requires c + cycles * TotalWeight(servers) <= WRAP || WRAP % TotalWeight(servers) == 0
    ensures cycles * TotalWeight(servers) >= 0
    ensures Turns(servers, i, c, cycles * TotalWeight(servers))
         == cycles * if servers[i].weight > 0 then servers[i].weight else 1
  {
    var w := TotalWeight(servers);
    ProductNonNegative(cycles, w);
    MultipleHasNoRemainder(cycles, w);
    WeightedFairness(servers, i, c, cycles * w);
  }

  /** So the turns of two servers with positive weights stand in the ratio of those weights. */
  lemma {:induction false} TurnsAreProportional(servers: seq<Info>, i: nat, j: nat, c: int, cycles: nat)
    requires i < |servers| && j < |servers| && servers[i].weight > 0 && servers[j].weight > 0 && 0 <= c < WRAP
    requires c + cycles * TotalWeight(servers) <= WRAP || WRAP % TotalWeight(servers) == 0
    ensures cycles * TotalWeight(servers) >= 0
    ensures var l := cycles * TotalWeight(servers);
            Turns(servers, i, c, l) * servers[j].weight == Turns(servers, j, c, l) * servers[i].weight
  {
    ConfiguredShares(servers, i, c, cycles);
    ConfiguredShares(servers, j, c, cycles);
    CrossMultiply(cycles, servers[i].weight, servers[j].weight);
  }

  lemma CrossMultiply(n: int, a: int, b: int)
    ensures (n * a) * b == (n * b) * a
  {
  }

  lemma {:induction false} UnitWeights(servers: seq<Info>, i: nat)
    requires i <= |servers| && forall k :: 0 <= k < |servers| ==> Weight(servers[k]) == 1
    ensures WeightBefore(servers, i) == i
  {
    if i > 0 { UnitWeights(servers, i - 1); }
  }

  /** With unit weights the weighted balancer's choice is round robin's. */
  lemma {:induction false} UnitWeightsAreRoundRobin(servers: seq<Info>, i: nat, c: int)
    requires i < |servers| && 0 <= c && forall k :: 0 <= k < |servers| ==> Weight(servers[k]) == 1
    ensures Owns(servers, i, c % TotalWeight(servers)) <==> i == c % |servers|
  {
    TotalIsWeightBefore(servers, |servers|);
    assert servers[|servers|..] == [];
    UnitWeights(servers, |servers|);
    UnitWeights(servers, i);
  }
}
