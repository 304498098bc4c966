/** Request counters, the rolling latency window and its percentiles
    (load_balancer/metrics.py). Latencies are exact reals. */
module Metrics {
  import opened Common

  const WINDOW := 1000

  function LastN<T>(s: seq<T>, n: nat): seq<T> {
    if |s| <= n then s else s[|s| - n..]
  }

  /** Trimming after every append keeps the last n of everything appended. */
  lemma LastNPush<T>(s: seq<T>, x: T, n: nat)
    requires n >= 1
    ensures var w := LastN(s, n) + [x]; (if |w| > n then w[|w| - n..] else w) == LastN(s + [x], n)
  {}

  predicate RealLe(x: real, y: real) {
    x <= y
  }

  // ----- nearest-rank percentile -----

  function Ceil(x: real): int {
    -((-x).Floor)
  }

  /** pct percent of n. */
  function Share(n: nat, pct: real): real {
    pct / 100.0 * n as real
  }

  function Rank(n: nat, pct: real): int {
    var r := Ceil(Share(n, pct));
    if r > 1 then r else 1
  }

  function Percentile(sortedValues: seq<real>, pct: real): real {
    if sortedValues == [] then 0.0
    else
      var n := |sortedValues|;
      var rank := Rank(n, pct);
      var index := (if rank < n then rank else n) - 1;
      sortedValues[index]
  }

  function AtMost(s: seq<real>, v: real): nat {
    if s == [] then 0 else (if s[0] <= v then 1 else 0) + AtMost(s[1..], v)
  }

  function Below(s: seq<real>, v: real): nat {
    if s == [] then 0 else (if s[0] < v then 1 else 0) + Below(s[1..], v)
  }

  lemma {:induction false} AtMostCounts(s: seq<real>, v: real, m: nat)
    requires m <= |s| && forall i :: 0 <= i < m ==> s[i] <= v
    ensures AtMost(s, v) >= m
  {
    if m > 0 { AtMostCounts(s[1..], v, m - 1); }
  }

  lemma {:induction false} BelowCounts(s: seq<real>, v: real, m: nat)
    requires m <= |s| && forall i :: m <= i < |s| ==> s[i] >= v
    ensures Below(s, v) <= m
  {
    if s != [] { BelowCounts(s[1..], v, if m > 0 then m - 1 else 0); }
  }

  lemma RankBounds(n: nat, pct: real)
    requires n >= 1 && 0.0 < pct <= 100.0
    ensures 1 <= Rank(n, pct) <= n
    ensures Share(n, pct) <= Rank(n, pct) as real < Share(n, pct) + 1.0
  {
    assert 0.0 < pct / 100.0 <= 1.0;
    assert 0.0 < Share(n, pct) <= n as real;
  }

  /** The result is a sample with at least pct percent of the samples at or below it and
      fewer than pct percent strictly below it. */
  lemma NearestRank(values: seq<real>, pct: real)
    requires values != [] && SortedBy(values, RealLe) && 0.0 < pct <= 100.0
    ensures var v := Percentile(values, pct);
      && v in values
      && AtMost(values, v) as real >= pct * |values| as real / 100.0
      && (Below(values, v) as real) < pct * |values| as real / 100.0
  {
    assert Share(|values|, pct) == pct * |values| as real / 100.0;
    var n := |values|;
    RankBounds(n, pct);
    var index := Rank(n, pct) - 1;
    var v := values[index];
    forall i | 0 <= i < index + 1 ensures values[i] <= v {
      if i < index { assert RealLe(values[i], values[index]); }
    }
    forall i | index <= i < n ensures values[i] >= v {
      if index < i { assert RealLe(values[index], values[i]); }
    }
    AtMostCounts(values, v, index + 1);
    BelowCounts(values, v, index);
  }

  lemma CeilMonotone(x: real, y: real)
    requires x <= y
    ensures Ceil(x) <= Ceil(y)
  {}

  lemma ShareMonotone(n: nat, p: real, q: real)
    requires p <= q
    ensures Share(n, p) <= Share(n, q)
  {
    var x, y, m := p / 100.0, q / 100.0, n as real;
    assert x <= y && m >= 0.0;
    assert (y - x) * m >= 0.0;
  }

  /** Percentiles do not cross. */
  lemma PercentileMonotone(values: seq<real>, p: real, q: real)
    requires values != [] && SortedBy(values, RealLe) && 0.0 < p <= q <= 100.0
    ensures values[0] <= Percentile(values, p) <= Percentile(values, q) <= values[|values| - 1]
  {
    var n := |values|;
    RankMonotone(n, p, q);
    SortedAt(values, 0, Rank(n, p) - 1);
    SortedAt(values, Rank(n, p) - 1, Rank(n, q) - 1);
    SortedAt(values, Rank(n, q) - 1, n - 1);
  }

  lemma RankMonotone(n: nat, p: real, q: real)
    requires n >= 1 && 0.0 < p <= q <= 100.0
    ensures 1 <= Rank(n, p) <= Rank(n, q) <= n
  {
    RankBounds(n, p);
    RankBounds(n, q);
    ShareMonotone(n, p, q);
    CeilMonotone(Share(n, p), Share(n, q));
  }

  lemma SortedAt(values: seq<real>, i: nat, j: nat)
    requires SortedBy(values, RealLe) && i <= j < |values|
    ensures values[i] <= values[j]
  {
    assert i == j || RealLe(values[i], values[j]);
  }

  // ----- the average -----

  /** `sum` */
  function Total(values: seq<real>): real {
    if values == [] then 0.0 else values[0] + Total(values[1..])
  }

  lemma {:induction false} TotalOfInsert(x: real, s: seq<real>)
    ensures Total(InsertInOrder(x, s, RealLe)) == x + Total(s)
  {
    if s == [] || RealLe(x, s[0]) {
      assert ([x] + s)[1..] == s;
    } else {
      var tail := InsertInOrder(x, s[1..], RealLe);
      TotalOfInsert(x, s[1..]);
      assert ([s[0]] + tail)[1..] == tail;
    }
  }

  /** Summing the sorted list sums the window. */
  lemma {:induction false} TotalOfSort(s: seq<real>)
    ensures Total(Sort(s, RealLe)) == Total(s)
  {
    if s != [] {
      TotalOfSort(s[1..]);
      TotalOfInsert(s[0], Sort(s[1..], RealLe));
    }
  }

  lemma {:induction false} TotalBounds(s: seq<real>, lo: real, hi: real)
    requires forall i :: 0 <= i < |s| ==> lo <= s[i] <= hi
    ensures |s| as real * lo <= Total(s) <= |s| as real * hi
  {
    if s != [] {
      var rest := s[1..];
      assert forall i :: 0 <= i < |rest| ==> rest[i] == s[i + 1];
      TotalBounds(rest, lo, hi);
      OneMore(|rest|, lo);
      OneMore(|rest|, hi);
      assert |s| == |rest| + 1;
    }
  }

  lemma OneMore(n: nat, x: real)
    ensures (n + 1) as real * x == n as real * x + x
  {
    assert (n + 1) as real == n as real + 1.0;
  }

  lemma AverageBounds(total: real, n: real, lo: real, hi: real)
    requires n > 0.0 && n * lo <= total <= n * hi
    ensures lo <= total / n <= hi
  {
    var a := total / n;
    assert total == n * a;
    assert a < lo ==> n * a < n * lo;
    assert a > hi ==> n * a > n * hi;
  }

  ghost predicate InRange(s: seq<real>, lo: real, hi: real) {
    forall i :: 0 <= i < |s| ==> lo <= s[i] <= hi
  }

  lemma SortedRange(sorted: seq<real>)
    requires sorted != [] && SortedBy(sorted, RealLe)
    ensures InRange(sorted, sorted[0], sorted[|sorted| - 1])
  {
    forall i | 0 <= i < |sorted| ensures sorted[0] <= sorted[i] <= sorted[|sorted| - 1] {
      assert i == 0 || RealLe(sorted[0], sorted[i]);
      assert i == |sorted| - 1 || RealLe(sorted[i], sorted[|sorted| - 1]);
    }
  }

  lemma AverageInRange(s: seq<real>, lo: real, hi: real)
    requires s != [] && InRange(s, lo, hi)
    ensures lo <= Total(s) / |s| as real <= hi
  {
    TotalBounds(s, lo, hi);
    AverageBounds(Total(s), |s| as real, lo, hi);
  }

  lemma SortKeepsRange(window: seq<real>, lo: real, hi: real)
    requires InRange(Sort(window, RealLe), lo, hi)
    ensures forall x :: x in window ==> lo <= x <= hi
  {
    SortKeepsElements(window, RealLe);
    forall x | x in window ensures lo <= x <= hi {
      assert x in Sort(window, RealLe);
    }
  }

  /** Least, average and greatest of a window, from its sorted list. */
  lemma WindowBounds(window: seq<real>)
    requires window != []
    ensures var sorted := Sort(window, RealLe);
      && sorted != [] && SortedBy(sorted, RealLe)
      && (forall x :: x in window ==> sorted[0] <= x <= sorted[|sorted| - 1])
      && sorted[0] <= Total(sorted) / |sorted| as real <= sorted[|sorted| - 1]
  {
    var sorted := Sort(window, RealLe);
    SortSorts(window, RealLe);
    SortedRange(sorted);
    SortKeepsRange(window, sorted[0], sorted[|sorted| - 1]);
    AverageInRange(sorted, sorted[0], sorted[|sorted| - 1]);
  }

  // ----- the class -----

  /** The latency part of `snapshot`. */
  datatype Latencies = Latencies(average: real, p50: real, p95: real, p99: real, minimum: real, maximum: real,
    sampleCount: nat)

  /** The two `defaultdict(int)` counters only ever add one to an entry: they are
      multisets. `seen` is every latency ever recorded. */
  class Metrics {
    var totalRequests: nat
    var successfulRequests: nat
    var failedRequests: nat
    var retriedRequests: nat
    var latenciesMs: seq<real>
    var backendSelectionCounts: multiset<string>
    var healthCheckFailures: multiset<string>
    ghost var seen: seq<real>

    ghost predicate Valid()
      reads this
    {
      && latenciesMs == LastN(seen, WINDOW)
      && totalRequests == |seen|
      && totalRequests == successfulRequests + failedRequests
      && totalRequests == |backendSelectionCounts|
    }

    constructor ()
      ensures Valid() && seen == []
      ensures totalRequests == successfulRequests == failedRequests == retriedRequests == 0
      ensures backendSelectionCounts == multiset{} && healthCheckFailures == multiset{}
    {
      totalRequests, successfulRequests, failedRequests, retriedRequests := 0, 0, 0, 0;
      latenciesMs, seen := [], [];
      backendSelectionCounts, healthCheckFailures := multiset{}, multiset{};
    }

    method RecordRequest(backendUrl: string, success: bool, latencyMs: real, retried: bool)
      requires Valid()
      modifies this
      ensures Valid()
      ensures seen == old(seen) + [latencyMs]
      ensures totalRequests == old(totalRequests) + 1
      ensures successfulRequests == old(successfulRequests) + (if success then 1 else 0)
      ensures failedRequests == old(failedRequests) + (if success then 0 else 1)
      ensures retriedRequests == old(retriedRequests) + (if retried then 1 else 0)
      ensures backendSelectionCounts == old(backendSelectionCounts) + multiset{backendUrl}
      ensures healthCheckFailures == old(healthCheckFailures)
    {
      totalRequests := totalRequests + 1;
      if success {
        successfulRequests := successfulRequests + 1;
      } else {
        failedRequests := failedRequests + 1;
      }
      retriedRequests := if retried then retriedRequests + 1 else retriedRequests;
      backendSelectionCounts := backendSelectionCounts + multiset{backendUrl};
      PushLatency(latencyMs);
    }

    /** `_latencies_ms.append`, then the trim to the last 1000. */
    method PushLatency(latencyMs: real)
      requires latenciesMs == LastN(seen, WINDOW)
      modifies this`latenciesMs, this`seen
      ensures seen == old(seen) + [latencyMs] && latenciesMs == LastN(seen, WINDOW)
    {
      LastNPush(seen, latencyMs, WINDOW);
      var window := latenciesMs + [latencyMs];
      latenciesMs := if |window| > WINDOW then window[|window| - WINDOW..] else window;
      seen := seen + [latencyMs];
    }

    method RecordHealthCheckFailure(backendUrl: string)
      requires Valid()
      modifies this`healthCheckFailures
      ensures Valid()
      ensures healthCheckFailures == old(healthCheckFailures) + multiset{backendUrl}
    {
      healthCheckFailures := healthCheckFailures + multiset{backendUrl};
    }

    /** The average and the percentiles are those of the last min(1000, total) latencies and are ordered;
        all are 0 on an empty window. */
    method Snapshot() returns (l: Latencies)
      requires Valid()
      ensures l.sampleCount == if totalRequests < 1000 then totalRequests else 1000
      ensures var sorted := Sort(LastN(seen, 1000), RealLe);
        l.p50 == Percentile(sorted, 50.0) && l.p95 == Percentile(sorted, 95.0) && l.p99 == Percentile(sorted, 99.0)
      ensures l.sampleCount > 0 ==> l.average == Total(LastN(seen, 1000)) / l.sampleCount as real
      ensures l.sampleCount == 0 ==> l.average == 0.0
      ensures l.minimum <= l.average <= l.maximum
      ensures l.minimum <= l.p50 <= l.p95 <= l.p99 <= l.maximum
      ensures l.sampleCount > 0 ==> forall x :: x in LastN(seen, 1000) ==> l.minimum <= x <= l.maximum
      ensures l.sampleCount > 0 ==> l.minimum in LastN(seen, 1000) && l.maximum in LastN(seen, 1000)
      ensures l.sampleCount == 0 ==> l.minimum == l.maximum == l.p50 == l.p95 == l.p99 == 0.0
    {
      var sorted := Sort(latenciesMs, RealLe);
      if sorted == [] {
        return Latencies(0.0, 0.0, 0.0, 0.0, 0.0, 0.0, 0);
      }
      WindowBounds(latenciesMs);
      SortKeepsElements(latenciesMs, RealLe);
      assert sorted[0] in sorted && sorted[|sorted| - 1] in sorted;
      PercentileMonotone(sorted, 50.0, 95.0);
      PercentileMonotone(sorted, 95.0, 99.0);
      TotalOfSort(latenciesMs);
      l := Latencies(Total(sorted) / |sorted| as real, Percentile(sorted, 50.0), Percentile(sorted, 95.0),
        Percentile(sorted, 99.0),
                     sorted[0], sorted[|sorted| - 1], |sorted|);
    }
  }
}
