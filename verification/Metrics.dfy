/** Second buckets, their rotation into a bounded history, and latency statistics. */
module Metrics {
  import opened Common
  import opened Hash

  // ----- latency statistics -----

  ghost predicate Sorted(s: seq<int>) {
    forall i, j :: 0 <= i < j < |s| ==> s[i] <= s[j]
  }

  function Insert(s: seq<int>, x: int): seq<int> {
    if s == [] || x <= s[0] then [x] + s else [s[0]] + Insert(s[1..], x)
  }

  /** The sorted sequence of these elements; there is only one (SortedCopyOfMultiset). */
  function SortedCopy(s: seq<int>): seq<int> {
    if s == [] then [] else Insert(SortedCopy(s[1..]), s[0])
  }

  lemma {:induction false} InsertContents(s: seq<int>, x: int)
    ensures multiset(Insert(s, x)) == multiset(s) + multiset{x}
    ensures |Insert(s, x)| == |s| + 1
  {
    if s != [] && x > s[0] {
      InsertContents(s[1..], x);
      assert s == [s[0]] + s[1..];
    }
  }

  lemma {:induction false} InsertLowerBound(s: seq<int>, x: int, lo: int)
    requires lo <= x && forall i :: 0 <= i < |s| ==> lo <= s[i]
    ensures forall i :: 0 <= i < |Insert(s, x)| ==> lo <= Insert(s, x)[i]
  {
    if s != [] && x > s[0] { InsertLowerBound(s[1..], x, lo); }
  }

  lemma {:induction false} InsertSorts(s: seq<int>, x: int)
    requires Sorted(s)
    ensures Sorted(Insert(s, x))
  {
    if s != [] && x > s[0] {
      InsertSorts(s[1..], x);
      InsertLowerBound(s[1..], x, s[0]);
    }
  }

  lemma {:induction false} SortedCopySorts(s: seq<int>)
    ensures Sorted(SortedCopy(s)) && multiset(SortedCopy(s)) == multiset(s) && |SortedCopy(s)| == |s|
  {
    if s != [] {
      SortedCopySorts(s[1..]);
      InsertSorts(SortedCopy(s[1..]), s[0]);
      InsertContents(SortedCopy(s[1..]), s[0]);
      assert s == [s[0]] + s[1..];
    }
  }

  lemma {:induction false} InsertsCommute(s: seq<int>, x: int, y: int)
    ensures Insert(Insert(s, x), y) == Insert(Insert(s, y), x)
  {
    if s != [] && x > s[0] && y > s[0] {
      InsertsCommute(s[1..], x, y);
    }
  }

  lemma {:induction false} SortedCopyTakesOut(s: seq<int>, i: nat)
    requires i < |s|
    ensures SortedCopy(s) == Insert(SortedCopy(s[..i] + s[i + 1..]), s[i])
    decreases i
  {
    var rest := s[..i] + s[i + 1..];
    if i == 0 {
      assert rest == s[1..];
    } else {
      SortedCopyTakesOut(s[1..], i - 1);
      assert rest[1..] == s[1..][..i - 1] + s[1..][i..];
      InsertsCommute(SortedCopy(rest[1..]), s[i], s[0]);
    }
  }

  lemma TakeOut(s: seq<int>, i: nat)
    requires i < |s|
    ensures multiset(s[..i] + s[i + 1..]) == multiset(s) - multiset{s[i]}
  {
    assert s == s[..i] + [s[i]] + s[i + 1..];
  }

  lemma RestsMatch(a: seq<int>, b: seq<int>, i: nat)
    requires a != [] && i < |b| && b[i] == a[0] && multiset(a) == multiset(b)
    ensures multiset(a[1..]) == multiset(b[..i] + b[i + 1..])
  {
    TakeOut(a, 0);
    TakeOut(b, i);
    assert a[..0] + a[0 + 1..] == a[1..];
  }

  lemma PositionOf(s: seq<int>, x: int) returns (i: nat)
    requires x in multiset(s)
    ensures i < |s| && s[i] == x
  {
    i :| 0 <= i < |s| && s[i] == x;
  }

  /** There is only one way to sort a multiset. */
  lemma {:induction false} SortedCopyOfMultiset(a: seq<int>, b: seq<int>)
    requires multiset(a) == multiset(b)
    ensures SortedCopy(a) == SortedCopy(b)
    decreases |a|
  {
    assert |multiset(a)| == |a| && |multiset(b)| == |b|;
    if a != [] {
      assert a[0] in multiset(a);
      var i := PositionOf(b, a[0]);
      var rest := b[..i] + b[i + 1..];
      RestsMatch(a, b, i);
      SortedCopyOfMultiset(a[1..], rest);
      SortedCopyTakesOut(b, i);
    }
  }

  function Sum(s: seq<int>): int {
    if s == [] then 0 else Sum(s[..|s| - 1]) + s[|s| - 1]
  }

  datatype Stats = Stats(avg: int, p50: int, p95: int, p99: int)

  /** The element a percentile refers to in `n` sorted ones. */
  function Rank(n: nat, percent: nat): nat
    requires n > 0 && percent < 100
    ensures Rank(n, percent) < n
  {
    assert n * percent <= n * 99;
    n * percent / 100
  }

  function Percentile(s: seq<int>, percent: nat): int
    requires s != [] && percent < 100
  {
    SortedCopySorts(s);
    SortedCopy(s)[Rank(|s|, percent)]
  }

  function StatsOf(s: seq<int>): Stats {
    if s == [] then Stats(0, 0, 0, 0)
    else Stats(TruncDiv(Sum(SortedCopy(s)), |s|), Percentile(s, 50), Percentile(s, 95), Percentile(s, 99))
  }

  lemma {:induction false} InsertAt(s: seq<int>, x: int, p: nat)
    requires p <= |s| && (forall k :: 0 <= k < p ==> s[k] < x) && (p == |s| || x <= s[p])
    ensures Insert(s, x) == s[..p] + [x] + s[p..]
  {
    if p > 0 {
      InsertAt(s[1..], x, p - 1);
      assert s == [s[0]] + s[1..];
    }
  }

  /** Moves a[i] right, past the smaller elements of the sorted rest. */
  method Sift(a: array<int>, i: nat)
    requires i < a.Length
    modifies a
    ensures a[..i] == old(a[..i])
    ensures a[i..] == Insert(old(a[i + 1..]), old(a[i]))
  {
    ghost var rest := a[i + 1..];
    var x, j := a[i], i;
    while j + 1 < a.Length && a[j] > a[j + 1]
      invariant i <= j < a.Length && a[j] == x
      invariant a[..i] == old(a[..i])
      invariant forall k :: j - i <= k < |rest| ==> a[i + 1 + k] == rest[k]
      invariant forall k :: 0 <= k < j - i ==> rest[k] < x && a[i + k] == rest[k]
      decreases a.Length - j
    {
      a[j], a[j + 1] := a[j + 1], a[j];
      j := j + 1;
    }
    assert a[i..j] == rest[..j - i] && a[j + 1..] == rest[j - i..];
    assert a[i..] == a[i..j] + [a[j]] + a[j + 1..];
    InsertAt(rest, x, j - i);
  }

  /** Sorting in place. */
  method Sort(a: array<int>)
    modifies a
    ensures a[..] == SortedCopy(old(a[..]))
  {
    var i := a.Length;
    ghost var was := a[..];
    while i > 0
      invariant 0 <= i <= a.Length
      invariant a[..i] == was[..i] && a[i..] == SortedCopy(was[i..])
    {
      i := i - 1;
      assert a[i] == was[i] && a[i + 1..] == SortedCopy(was[i + 1..]);
      ghost var before := a[..i];
      Sift(a, i);
      assert was[i..][1..] == was[i + 1..] && a[..i] == before == was[..i];
    }
    assert a[..] == a[0..] && was[0..] == was;
  }

  /** calculateStats: sorts its argument in place, adds up in a loop, divides, and indexes. */
  method CalculateStats(latencies: array<int>) returns (r: Stats)
    modifies latencies
    ensures r == StatsOf(old(latencies[..]))
    ensures latencies[..] == SortedCopy(old(latencies[..]))
  {
    var n := latencies.Length;
    ghost var was := latencies[..];
    if n == 0 {
      return Stats(0, 0, 0, 0);
    }
    Sort(latencies);
    var sum := 0;
    for i := 0 to n
      invariant sum == Sum(latencies[..i])
    {
      assert latencies[..i + 1][..i] == latencies[..i];
      sum := sum + latencies[i];
    }
    ghost var sorted := latencies[..];
    assert latencies[..n] == sorted == SortedCopy(was) && |was| == n;
    r := Stats(TruncDiv(sum, n), latencies[Rank(n, 50)], latencies[Rank(n, 95)], latencies[Rank(n, 99)]);
    assert r.avg == TruncDiv(Sum(SortedCopy(was)), |was|);
    assert r.p50 == Percentile(was, 50) && r.p95 == Percentile(was, 95) && r.p99 == Percentile(was, 99);
  }

  /** Statistics depend only on which latencies were recorded, not on their order. */
  lemma {:induction false} StatsDependOnMultiset(a: seq<int>, b: seq<int>)
    requires multiset(a) == multiset(b)
    ensures StatsOf(a) == StatsOf(b)
  {
    SortedCopyOfMultiset(a, b);
    SortedCopySorts(a);
    SortedCopySorts(b);
    assert |a| == |b|;
  }

  function Below(s: seq<int>, v: int): nat {
    if s == [] then 0 else (if s[0] < v then 1 else 0) + Below(s[1..], v)
  }

  lemma {:induction false} BelowInsert(s: seq<int>, x: int, v: int)
    ensures Below(Insert(s, x), v) == Below(s, v) + if x < v then 1 else 0
  {
    if s != [] && x > s[0] { BelowInsert(s[1..], x, v); }
  }

  lemma {:induction false} BelowSortedCopy(s: seq<int>, v: int)
    ensures Below(SortedCopy(s), v) == Below(s, v)
  {
    if s != [] {
      BelowSortedCopy(s[1..], v);
      BelowInsert(SortedCopy(s[1..]), s[0], v);
    }
  }

  lemma {:induction false} BelowRange(s: seq<int>, v: int, r: nat)
    requires r <= |s|
    ensures (forall i :: r <= i < |s| ==> s[i] >= v) ==> Below(s, v) <= r
    ensures (forall i :: 0 <= i < r ==> s[i] < v) ==> Below(s, v) >= r
    decreases |s|
  {
    if s != [] {
      var t := s[1..];
      BelowRange(t, v, if r == 0 then 0 else r - 1);
      assert forall i :: 0 <= i < |t| ==> t[i] == s[i + 1];
    }
  }

  lemma {:induction false} BelowInSorted(t: seq<int>, rank: nat)
    requires Sorted(t) && rank < |t|
    ensures Below(t, t[rank]) <= rank < Below(t, t[rank] + 1)
  {
    BelowRange(t, t[rank], rank);
    BelowRange(t, t[rank] + 1, rank + 1);
  }

  lemma {:induction false} OrderStatistic(s: seq<int>, rank: nat)
    requires rank < |SortedCopy(s)|
    ensures Below(s, SortedCopy(s)[rank]) <= rank < Below(s, SortedCopy(s)[rank] + 1)
  {
    var t := SortedCopy(s);
    SortedCopySorts(s);
    BelowInSorted(t, rank);
    BelowSortedCopy(s, t[rank]);
    BelowSortedCopy(s, t[rank] + 1);
  }

  /** p50, p95 and p99 are order statistics: at most n * percent / 100 of the n latencies are
      below the percentile, and more than that many are not above it. */
  lemma {:induction false} PercentileIsOrderStatistic(s: seq<int>, percent: nat)
    requires s != [] && percent < 100
    ensures Below(s, Percentile(s, percent)) <= |s| * percent / 100 < Below(s, Percentile(s, percent) + 1)
  {
    SortedCopySorts(s);
    OrderStatistic(s, Rank(|s|, percent));
  }

  lemma {:induction false} SumBounds(s: seq<int>, lo: int, hi: int)
    requires forall i :: 0 <= i < |s| ==> lo <= s[i] <= hi
    ensures lo * |s| <= Sum(s) <= hi * |s|
  {
    if s != [] {
      SumBounds(s[..|s| - 1], lo, hi);
      assert lo * |s| == lo * (|s| - 1) + lo && hi * |s| == hi * (|s| - 1) + hi;
    }
  }

  lemma SameRange(s: seq<int>, t: seq<int>, lo: int, hi: int)
    requires multiset(s) == multiset(t) && forall i :: 0 <= i < |s| ==> lo <= s[i] <= hi
    ensures forall i :: 0 <= i < |t| ==> lo <= t[i] <= hi
  {
    forall i | 0 <= i < |t| ensures lo <= t[i] <= hi {
      assert t[i] in multiset(t) && t[i] in multiset(s);
    }
  }

  /** min <= p50 <= p95 <= p99 <= max, and the average of non-negative latencies lies between
      the smallest and the largest too. */
  lemma {:induction false} StatsAreOrdered(s: seq<int>, lo: int, hi: int)
    requires s != [] && 0 <= lo && forall i :: 0 <= i < |s| ==> lo <= s[i] <= hi
    ensures var r := StatsOf(s);
            lo <= r.p50 <= r.p95 <= r.p99 <= hi && lo <= r.avg <= hi
  {
    SortedCopySorts(s);
    var t := SortedCopy(s);
    assert Rank(|s|, 50) <= Rank(|s|, 95) <= Rank(|s|, 99);
    SameRange(s, t, lo, hi);
    SumBounds(t, lo, hi);
    AverageBounds(Sum(t), |t|, lo, hi);
  }

  lemma AverageBounds(sum: int, n: int, lo: int, hi: int)
    requires n > 0 && 0 <= lo && lo * n <= sum <= hi * n
    ensures lo <= TruncDiv(sum, n) <= hi
  {
    ProductNonNegative(lo, n);
    var q := sum / n;
    assert sum == q * n + sum % n;
    if q < lo { ProductMonotonic(q + 1, lo, n); }
    if q > hi { ProductMonotonic(hi + 1, q, n); }
  }

  // ----- what the statistics say about the latencies recorded -----

  /** The sum, wherever a list is cut. */
  lemma {:induction false} SumAdds(a: seq<int>, b: seq<int>, x: int)
    ensures Sum(a + b) == Sum(a) + Sum(b)
    ensures Sum([x]) == x
    decreases |b|
  {
    assert [x][..0] == [];
    if b == [] {
      assert a + b == a;
    } else {
      var last := |b| - 1;
      SumAdds(a, b[..last], x);
      assert (a + b)[..|a| + last] == a + b[..last];
    }
  }

  lemma {:induction false} InsertAdds(s: seq<int>, x: int)
    ensures Sum(Insert(s, x)) == Sum(s) + x
  {
    if s == [] || x <= s[0] {
      SumAdds([x], s, x);
    } else {
      InsertAdds(s[1..], x);
      SumAdds([s[0]], s[1..], s[0]);
      SumAdds([s[0]], Insert(s[1..], x), s[0]);
      assert s == [s[0]] + s[1..];
    }
  }

  lemma {:induction false} SortingKeepsSum(s: seq<int>)
    ensures Sum(SortedCopy(s)) == Sum(s)
  {
    if s != [] {
      SortingKeepsSum(s[1..]);
      InsertAdds(SortedCopy(s[1..]), s[0]);
      SumAdds([s[0]], s[1..], s[0]);
      assert s == [s[0]] + s[1..];
    }
  }

  /** The average is the sum of the latencies, as recorded, over their number, truncated. */
  lemma {:induction false} AverageIsMean(s: seq<int>)
    requires s != []
    ensures IsTruncated(StatsOf(s).avg, Sum(s), |s|)
    ensures Sum(s) >= 0 ==> StatsOf(s).avg * |s| <= Sum(s) < StatsOf(s).avg * |s| + |s|
  {
    SortingKeepsSum(s);
    TruncDivTruncates(Sum(s), |s|);
  }

  lemma PercentileIsRecorded(s: seq<int>, percent: nat)
    requires s != [] && percent < 100
    ensures Percentile(s, percent) in s
  {
    SortedCopySorts(s);
    assert Percentile(s, percent) in multiset(SortedCopy(s));
  }

  /** `v` is a recorded latency with at most `rank` recorded below it and more not above it. */
  ghost predicate IsOrderStatistic(s: seq<int>, rank: int, v: int) {
    v in s && Below(s, v) <= rank < Below(s, v + 1)
  }

  /** p50, p95 and p99 are the order statistics of half, 95 and 99 percent. */
  lemma {:induction false} PercentilesOfStats(s: seq<int>)
    requires s != []
    ensures IsOrderStatistic(s, |s| * 50 / 100, StatsOf(s).p50)
    ensures IsOrderStatistic(s, |s| * 95 / 100, StatsOf(s).p95)
    ensures IsOrderStatistic(s, |s| * 99 / 100, StatsOf(s).p99)
  {
    PercentileIs(s, 50);
    PercentileIs(s, 95);
    PercentileIs(s, 99);
  }

  lemma PercentileIs(s: seq<int>, percent: nat)
    requires s != [] && percent < 100
    ensures IsOrderStatistic(s, |s| * percent / 100, Percentile(s, percent))
  {
    PercentileIsOrderStatistic(s, percent);
    PercentileIsRecorded(s, percent);
  }

  /** Counting below a value, wherever a list is cut. */
  lemma {:induction false} BelowAdds(a: seq<int>, b: seq<int>, v: int, x: int)
    ensures Below(a + b, v) == Below(a, v) + Below(b, v)
    ensures Below([x], v) == if x < v then 1 else 0
  {
    assert [x][1..] == [];
    if a == [] {
      assert a + b == b;
    } else {
      BelowAdds(a[1..], b, v, x);
      assert (a + b)[1..] == a[1..] + b;
    }
  }

  // ----- shards -----

  /** createSnapshotFromBucket's merge: all shards appended in order. */
  function Merged(shards: seq<seq<int>>): seq<int> {
    if shards == [] then [] else Merged(shards[..|shards| - 1]) + shards[|shards| - 1]
  }

  /** Latencies recorded one after the other, each in the shard its placement names. */
  function Filed(shards: seq<seq<int>>, latencies: seq<int>, places: seq<nat>): seq<seq<int>>
    requires |latencies| == |places| && forall i :: 0 <= i < |places| ==> places[i] < |shards|
    decreases |latencies|
  {
    if latencies == [] then shards
    else Filed(shards[places[0] := shards[places[0]] + [latencies[0]]], latencies[1..], places[1..])
  }

  lemma {:induction false} MergedUpdate(shards: seq<seq<int>>, i: nat, x: int)
    requires i < |shards|
    ensures multiset(Merged(shards[i := shards[i] + [x]])) == multiset(Merged(shards)) + multiset{x}
    decreases |shards|
  {
    var last := |shards| - 1;
    var after := shards[i := shards[i] + [x]];
    if i == last {
      assert after[..last] == shards[..last];
    } else {
      MergedUpdate(shards[..last], i, x);
      assert after[..last] == shards[..last][i := shards[i] + [x]];
    }
  }

  lemma {:induction false} FilingKeepsMultiset(shards: seq<seq<int>>, latencies: seq<int>, places: seq<nat>)
    requires |latencies| == |places| && forall i :: 0 <= i < |places| ==> places[i] < |shards|
    ensures multiset(Merged(Filed(shards, latencies, places))) == multiset(Merged(shards)) + multiset(latencies)
    decreases |latencies|
  {
    if latencies != [] {
      MergedUpdate(shards, places[0], latencies[0]);
      FilingKeepsMultiset(shards[places[0] := shards[places[0]] + [latencies[0]]], latencies[1..], places[1..]);
      assert latencies == [latencies[0]] + latencies[1..];
    }
  }

  lemma {:induction false} EmptyMerge(n: nat)
    ensures Merged(seq(n, _ => [])) == []
  {
    if n > 0 {
      EmptyMerge(n - 1);
      assert seq<seq<int>>(n, _ => [])[..n - 1] == seq<seq<int>>(n - 1, _ => []);
    }
  }

  /** The statistics of a bucket are those of its latencies, for any number of shards and any
      placement. */
  lemma {:induction false} StatsAreShardIndependent(n: nat, latencies: seq<int>, places: seq<nat>)
    requires |latencies| == |places| && forall i :: 0 <= i < |places| ==> places[i] < n
    ensures StatsOf(Merged(Filed(seq(n, _ => []), latencies, places))) == StatsOf(latencies)
  {
    EmptyMerge(n);
    FilingKeepsMultiset(seq(n, _ => []), latencies, places);
    StatsDependOnMultiset(Merged(Filed(seq(n, _ => []), latencies, places)), latencies);
  }

  /** The loop that appends all shards. */
  method Merge(shards: seq<seq<int>>) returns (all: seq<int>)
    ensures all == Merged(shards)
  {
    all := [];
    for i := 0 to |shards|
      invariant all == Merged(shards[..i])
    {
      assert shards[..i + 1][..i] == shards[..i];
      all := all + shards[i];
    }
    assert shards[..|shards|] == shards;
  }

  /** Statistics of a list made for the purpose, which the sorting may overwrite. */
  method StatsOfMerged(latencies: seq<int>) returns (r: Stats)
    ensures forall s: seq<int> :: multiset(s) == multiset(latencies) ==> r == StatsOf(s)
  {
    var a := new int[|latencies|](i requires 0 <= i < |latencies| => latencies[i]);
    assert a[..] == latencies;
    r := CalculateStats(a);
    forall s: seq<int> | multiset(s) == multiset(latencies) ensures r == StatsOf(s) {
      StatsDependOnMultiset(s, latencies);
    }
  }

  // ----- buckets -----

  class Bucket {
    const timestamp: int
    var total: int
    var success: int
    var rejected: int
    var successLatencies: seq<seq<int>>
    var rejectedLatencies: seq<seq<int>>

    ghost predicate Valid(shards: nat)
      reads this
    {
      && |successLatencies| == |rejectedLatencies| == shards
      && success == |Merged(successLatencies)| && rejected == |Merged(rejectedLatencies)|
      && total == success + rejected
    }

    constructor (timestamp: int, shards: nat)
      ensures this.timestamp == timestamp && Valid(shards) && total == 0
      ensures Answered() == Limited() == multiset{}
    {
      this.timestamp := timestamp;
      total, success, rejected := 0, 0, 0;
      successLatencies := seq(shards, _ => []);
      rejectedLatencies := seq(shards, _ => []);
      new;
      EmptyMerge(shards);
    }

    /** The latencies of answered and of rate-limited requests. */
    ghost function Answered(): multiset<int>
      reads this
    {
      multiset(Merged(successLatencies))
    }

    ghost function Limited(): multiset<int>
      reads this
    {
      multiset(Merged(rejectedLatencies))
    }

    /** createSnapshotFromBucket: the statistics of all, of the answered and of the rate-limited
        requests are those of the latencies recorded, in whatever order and whichever shards. */
    method Snapshot() returns (all: Stats, answered: Stats, limited: Stats)
      requires Valid(|successLatencies|)
      ensures forall s: seq<int> :: multiset(s) == Answered() ==> answered == StatsOf(s)
      ensures forall s: seq<int> :: multiset(s) == Limited() ==> limited == StatsOf(s)
      ensures forall s: seq<int> :: multiset(s) == Answered() + Limited() ==> all == StatsOf(s)
    {
      var successes := Merge(successLatencies);
      var rejections := Merge(rejectedLatencies);
      all := StatsOfMerged(successes + rejections);
      answered := StatsOfMerged(successes);
      limited := StatsOfMerged(rejections);
    }

    /** One request filed in shard `i`. */
    method Record(i: nat, latency: int, rateLimited: bool)
      requires Valid(|successLatencies|) && i < |successLatencies|
      modifies this
      ensures Valid(|old(successLatencies)|) && total == old(total) + 1
      ensures Answered() == old(Answered()) + if rateLimited then multiset{} else multiset{latency}
      ensures Limited() == old(Limited()) + if rateLimited then multiset{latency} else multiset{}
    {
      total := total + 1;
      if rateLimited {
        MergedUpdate(rejectedLatencies, i, latency);
        MergedLength(rejectedLatencies, i, latency);
        rejected := rejected + 1;
        rejectedLatencies := rejectedLatencies[i := rejectedLatencies[i] + [latency]];
      } else {
        MergedUpdate(successLatencies, i, latency);
        MergedLength(successLatencies, i, latency);
        success := success + 1;
        successLatencies := successLatencies[i := successLatencies[i] + [latency]];
      }
    }
  }

  lemma {:induction false} MergedLength(shards: seq<seq<int>>, i: nat, x: int)
    requires i < |shards|
    ensures |Merged(shards[i := shards[i] + [x]])| == |Merged(shards)| + 1
  {
    MergedUpdate(shards, i, x);
    assert |multiset(Merged(shards[i := shards[i] + [x]]))| == |multiset(Merged(shards))| + 1;
  }

  /** How many seconds of history are kept. */
  const KEPT := 10

  class Collector {
    const numShards: nat
    var current: Bucket
    var history: map<int, Bucket>
    var totalRequests: int
    var successfulRequests: int
    var rateLimitedRequests: int

    /** Archived buckets are the right ones and belong to the last KEPT seconds before the
        current one. */
    ghost predicate HistoryOk()
      reads this
    {
      forall ts :: ts in history ==> history[ts].timestamp == ts && current.timestamp - KEPT <= ts < current.timestamp
    }

    ghost predicate Valid()
      reads this, current
    {
      numShards > 0 && current.Valid(numShards) && HistoryOk()
    }

    constructor (numShards: int, now: int)
      ensures Valid() && fresh(current) && current.timestamp == now && current.total == 0
      ensures history == map[] && totalRequests == successfulRequests == rateLimitedRequests == 0
      ensures this.numShards == if numShards <= 0 then 64 else numShards
    {
      var n: nat := if numShards <= 0 then 64 else numShards;
      this.numShards := n;
      current := new Bucket(now, n);
      history := map[];
      totalRequests, successfulRequests, rateLimitedRequests := 0, 0, 0;
    }

    /** rotateBucket: nothing for an instant not after the current second; otherwise the
        current bucket is archived, old ones are dropped, and an empty one takes over. */
    method RotateBucket(newTimestamp: int)
      requires Valid()
      modifies this`current, this`history
      ensures Valid()
      ensures newTimestamp <= old(current.timestamp) ==> current == old(current) && history == old(history)
      ensures newTimestamp > old(current.timestamp) ==>
        && fresh(current) && current.timestamp == newTimestamp && current.total == 0
        && current.Answered() == current.Limited() == multiset{}
        && (forall ts :: ts in history <==>
              (ts in old(history) || ts == old(current.timestamp)) && newTimestamp - KEPT <= ts)
        && (forall ts :: ts in history ==>
              history[ts] == if ts == old(current.timestamp) then old(current) else old(history)[ts])
      ensures old(current.timestamp) < newTimestamp <= old(current.timestamp) + 10 ==>
                old(current.timestamp) in history && history[old(current.timestamp)] == old(current)
      ensures newTimestamp > old(current.timestamp) + 10 ==> history == map[]
    {
      if current.timestamp >= newTimestamp {
        return;
      }
      var archived := history[current.timestamp := current];
      history := map ts | ts in archived && ts >= newTimestamp - KEPT :: archived[ts];
      current := new Bucket(newTimestamp, numShards);
    }

    method ShardFor(clientId: Key) returns (i: nat)
      requires numShards > 0
      ensures i < numShards && i == ShardIndex(clientId, numShards) == (Fnv1a(clientId) as nat) % numShards
    {
      var h := ComputeFnv1a(clientId);
      i := (h as nat) % numShards;
    }

    /** The collector's own counters. */
    method CountRequest(rateLimited: bool)
      modifies this`totalRequests, this`successfulRequests, this`rateLimitedRequests
      ensures totalRequests == old(totalRequests) + 1
      ensures successfulRequests == old(successfulRequests) + if rateLimited then 0 else 1
      ensures rateLimitedRequests == old(rateLimitedRequests) + if rateLimited then 1 else 0
    {
      totalRequests := totalRequests + 1;
      if rateLimited {
        rateLimitedRequests := rateLimitedRequests + 1;
      } else {
        successfulRequests := successfulRequests + 1;
      }
    }

    /** RecordRequest: rotates when the clock has moved on; a clock that stepped back records
        into the current bucket. */
    method RecordRequest(clientId: Key, latency: int, rateLimited: bool, now: int)
      requires Valid()
      modifies this, current
      ensures Valid() && totalRequests == old(totalRequests) + 1
      ensures successfulRequests == old(successfulRequests) + if rateLimited then 0 else 1
      ensures rateLimitedRequests == old(rateLimitedRequests) + if rateLimited then 1 else 0
      ensures current.timestamp == if now > old(current.timestamp) then now else old(current.timestamp)
      ensures now <= old(current.timestamp) ==> current == old(current) && history == old(history)
      ensures now > old(current.timestamp) ==>
        && fresh(current) && old(current).total == old(current.total)
        && old(current).Answered() == old(current.Answered()) && old(current).Limited() == old(current.Limited())
      ensures current.Answered() == (if now > old(current.timestamp) then multiset{} else old(current.Answered()))
                                    + if rateLimited then multiset{} else multiset{latency}
      ensures current.Limited() == (if now > old(current.timestamp) then multiset{} else old(current.Limited()))
                                   + if rateLimited then multiset{latency} else multiset{}
      ensures old(current.timestamp) < now <= old(current.timestamp) + 10 ==>
                old(current.timestamp) in history && history[old(current.timestamp)] == old(current)
    {
      CountRequest(rateLimited);
      if current.timestamp != now {
        if now > current.timestamp {
          RotateBucket(now);
        }
      }
      var i := ShardFor(clientId);
      current.Record(i, latency, rateLimited);
    }
  }
}
