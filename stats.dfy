/**
 * The statistics of one run: the overall success rate, the grouping of the
 * records by endpoint, and each endpoint's counts and latency figures.
 */
module Stats {
  import opened Wrappers
  import opened Text
  import opened Outcome

  // ---------------------------------------------------------------- counting

  /** How many records satisfy `p` (Python's `sum(1 for r in rs if p(r))`). */
  function CountIf(rs: seq<Record>, p: Record -> bool): (c: nat)
    ensures c <= |rs|
    ensures c == |rs| <==> forall i :: 0 <= i < |rs| ==> p(rs[i])
    ensures c == 0 <==> forall i :: 0 <= i < |rs| ==> !p(rs[i])
  {
    if rs == [] then 0
    else
      var init := rs[..|rs| - 1];
      assert forall i :: 0 <= i < |init| ==> init[i] == rs[i];
      CountIf(init, p) + (if p(rs[|rs| - 1]) then 1 else 0)
  }

  /** A predicate that implies another never counts more records. */
  lemma {:induction false} CountIfImplies(rs: seq<Record>, p: Record -> bool, q: Record -> bool)
    requires forall i :: 0 <= i < |rs| ==> p(rs[i]) ==> q(rs[i])
    ensures CountIf(rs, p) <= CountIf(rs, q)
  {
    if rs != [] {
      var init := rs[..|rs| - 1];
      assert forall i :: 0 <= i < |init| ==> init[i] == rs[i];
      CountIfImplies(init, p, q);
    }
  }

  predicate FlaggedBusinessSuccess(r: Record)
  {
    r.isBusinessSuccess
  }

  /** Records that count under the overall (business-aware) rule. */
  function SuccessCount(rs: seq<Record>): nat
  {
    CountIf(rs, CountsAsSuccess)
  }

  /** `calculate_success_rate`: the fraction of records that count, 0 for no records. */
  function CalculateSuccessRate(rs: seq<Record>): (rate: real)
    ensures 0.0 <= rate <= 1.0
    ensures rs == [] ==> rate == 0.0
    ensures rs != [] ==> rate * (|rs| as real) == SuccessCount(rs) as real
    ensures rs != [] ==> (rate == 1.0 <==> forall i :: 0 <= i < |rs| ==> CountsAsSuccess(rs[i]))
    ensures rate == 0.0 <==> forall i :: 0 <= i < |rs| ==> !CountsAsSuccess(rs[i])
  {
    Ratio(SuccessCount(rs), |rs|)
  }

  /** The count a group's error figure is taken against: business successes when the endpoint
      name mentions "signup", HTTP 2xx otherwise. */
  function CombinedSuccessCount(endpoint: string, g: seq<Record>): (c: nat)
    ensures c <= |g|
  {
    if Contains(endpoint, "signup") then CountIf(g, FlaggedBusinessSuccess) else CountIf(g, IsHttpSuccess)
  }

  /** A group's chosen success count never exceeds what the overall rule counts in it, so the
      endpoint error counts never hide a failure the overall rate sees. */
  lemma CombinedAtMostOverall(endpoint: string, g: seq<Record>)
    ensures CombinedSuccessCount(endpoint, g) <= SuccessCount(g)
  {
    if Contains(endpoint, "signup") {
      CountIfImplies(g, FlaggedBusinessSuccess, CountsAsSuccess);
    } else {
      CountIfImplies(g, IsHttpSuccess, CountsAsSuccess);
    }
  }

  // ---------------------------------------------------------------- grouping

  /** The records of endpoint `e`, in input order. */
  function Filter(rs: seq<Record>, e: string): (g: seq<Record>)
    ensures |g| <= |rs|
    ensures forall i :: 0 <= i < |g| ==> g[i].endpoint == e
  {
    if rs == [] then [] else
      var last := rs[|rs| - 1];
      Filter(rs[..|rs| - 1], e) + (if last.endpoint == e then [last] else [])
  }

  /** Appending a record appends it to its own group and leaves the others alone. */
  lemma FilterSnoc(rs: seq<Record>, x: Record, e: string)
    ensures Filter(rs + [x], e) == Filter(rs, e) + (if x.endpoint == e then [x] else [])
  {
    assert (rs + [x])[..|rs|] == rs;
  }

  /** A group holds exactly the input records of its endpoint, each as often as in the input. */
  lemma {:induction false} FilterMultiset(rs: seq<Record>, e: string, x: Record)
    ensures multiset(Filter(rs, e))[x] == if x.endpoint == e then multiset(rs)[x] else 0
  {
    if rs != [] {
      var init := rs[..|rs| - 1];
      assert rs == init + [rs[|rs| - 1]];
      FilterMultiset(init, e, x);
    }
  }

  /** The distinct endpoints, in order of first appearance (the key order of the source's dict). */
  function Endpoints(rs: seq<Record>): (ks: seq<string>)
    ensures forall i, j :: 0 <= i < j < |ks| ==> ks[i] != ks[j]
  {
    if rs == [] then [] else
      var last := rs[|rs| - 1];
      var ks := Endpoints(rs[..|rs| - 1]);
      if last.endpoint in ks then ks else ks + [last.endpoint]
  }

  lemma EndpointsSnoc(rs: seq<Record>, x: Record)
    ensures Endpoints(rs + [x]) ==
      if x.endpoint in Endpoints(rs) then Endpoints(rs) else Endpoints(rs) + [x.endpoint]
  {
    assert (rs + [x])[..|rs|] == rs;
  }

  /** An endpoint is listed exactly when its group is non-empty. */
  lemma {:induction false} EndpointsListed(rs: seq<Record>, k: string)
    ensures k in Endpoints(rs) <==> Filter(rs, k) != []
  {
    if rs != [] {
      var init := rs[..|rs| - 1];
      var x := rs[|rs| - 1];
      assert rs == init + [x];
      EndpointsListed(init, k);
      EndpointsSnoc(init, x);
      FilterSnoc(init, x, k);
    }
  }

  /** An endpoint that no record names has an empty group. */
  lemma FilterAbsent(rs: seq<Record>, e: string)
    requires e !in Endpoints(rs)
    ensures Filter(rs, e) == []
  {
    EndpointsListed(rs, e);
  }

  /** Total size of the groups of the endpoints in `keys`. */
  function SumSizes(keys: seq<string>, rs: seq<Record>): nat
  {
    if keys == [] then 0 else SumSizes(keys[..|keys| - 1], rs) + |Filter(rs, keys[|keys| - 1])|
  }

  /** Appending one record grows exactly the group of its endpoint, by one. */
  lemma {:induction false} SumSizesSnoc(keys: seq<string>, rs: seq<Record>, x: Record)
    requires forall i, j :: 0 <= i < j < |keys| ==> keys[i] != keys[j]
    ensures SumSizes(keys, rs + [x]) == SumSizes(keys, rs) + (if x.endpoint in keys then 1 else 0)
  {
    if keys != [] {
      var init := keys[..|keys| - 1];
      var k := keys[|keys| - 1];
      SumSizesSnoc(init, rs, x);
      FilterSnoc(rs, x, k);
      assert x.endpoint in keys <==> x.endpoint in init || x.endpoint == k;
      assert k !in init;
    }
  }

  /** Extending the key list by one endpoint adds that endpoint's group. */
  lemma SumSizesAppend(keys: seq<string>, k: string, rs: seq<Record>)
    ensures SumSizes(keys + [k], rs) == SumSizes(keys, rs) + |Filter(rs, k)|
  {
    assert (keys + [k])[..|keys|] == keys;
  }

  /** The group sizes of the listed endpoints add up to the number of records; with
      `FilterMultiset` this says the groups partition the input. */
  lemma {:induction false} GroupsPartition(rs: seq<Record>)
    ensures SumSizes(Endpoints(rs), rs) == |rs|
  {
    if rs != [] {
      var init := rs[..|rs| - 1];
      var x := rs[|rs| - 1];
      assert rs == init + [x];
      GroupsPartition(init);
      var ks := Endpoints(init);
      SumSizesSnoc(ks, init, x);
      EndpointsSnoc(init, x);
      if x.endpoint !in ks {
        SumSizesAppend(ks, x.endpoint, rs);
        FilterAbsent(init, x.endpoint);
        FilterSnoc(init, x, x.endpoint);
      }
    }
  }

  /** Python's grouping loop: a dict from endpoint to its records, filled by appending; `order`
      is the dict's key order. */
  method GroupByEndpoint(results: seq<Record>) returns (groups: map<string, seq<Record>>, order: seq<string>)
    ensures order == Endpoints(results)
    ensures forall k :: k in groups <==> k in order
    ensures forall k :: k in groups ==> groups[k] == Filter(results, k)
  {
    groups, order := map[], [];
    var i := 0;
    while i < |results|
      invariant 0 <= i <= |results|
      invariant order == Endpoints(results[..i])
      invariant forall k :: k in groups <==> k in order
      invariant forall k :: k in groups ==> groups[k] == Filter(results[..i], k)
    {
      var r := results[i];
      assert results[..i + 1] == results[..i] + [r];
      EndpointsSnoc(results[..i], r);
      forall k ensures Filter(results[..i + 1], k) == Filter(results[..i], k) + (if r.endpoint == k then [r] else []) {
        FilterSnoc(results[..i], r, k);
      }
      if r.endpoint !in groups {
        groups := groups[r.endpoint := []];
        order := order + [r.endpoint];
        FilterAbsent(results[..i], r.endpoint);
      }
      groups := groups[r.endpoint := groups[r.endpoint] + [r]];
      i := i + 1;
    }
    assert results[..i] == results;
  }

  // ---------------------------------------------------------------- latency figures

  /** The response times of a group, in order. */
  function Times(g: seq<Record>): (t: seq<real>)
    ensures |t| == |g| && forall i :: 0 <= i < |g| ==> t[i] == g[i].responseTime
  {
    seq(|g|, i requires 0 <= i < |g| => g[i].responseTime)
  }

  /** `min(s) if s else 0`. */
  function MinOf(s: seq<real>): (m: real)
    ensures s == [] ==> m == 0.0
    ensures s != [] ==> m in s && forall i :: 0 <= i < |s| ==> m <= s[i]
  {
    if s == [] then 0.0
    else if |s| == 1 then s[0]
    else
      var init := s[..|s| - 1];
      assert forall i :: 0 <= i < |init| ==> init[i] == s[i];
      var m := MinOf(init);
      assert m in s;
      if s[|s| - 1] < m then s[|s| - 1] else m
  }

  /** `max(s) if s else 0`. */
  function MaxOf(s: seq<real>): (m: real)
    ensures s == [] ==> m == 0.0
    ensures s != [] ==> m in s && forall i :: 0 <= i < |s| ==> s[i] <= m
  {
    if s == [] then 0.0
    else if |s| == 1 then s[0]
    else
      var init := s[..|s| - 1];
      assert forall i :: 0 <= i < |init| ==> init[i] == s[i];
      var m := MaxOf(init);
      assert m in s;
      if s[|s| - 1] > m then s[|s| - 1] else m
  }

  function Sum(s: seq<real>): real
  {
    if s == [] then 0.0 else Sum(s[..|s| - 1]) + s[|s| - 1]
  }

  /** A sum of samples bounded by `lo` and `hi` lies between `n*lo` and `n*hi`. */
  lemma {:induction false} SumBounds(s: seq<real>, lo: real, hi: real)
    requires forall i :: 0 <= i < |s| ==> lo <= s[i] <= hi
    ensures (|s| as real) * lo <= Sum(s) <= (|s| as real) * hi
  {
    if s != [] {
      var init := s[..|s| - 1];
      assert forall i :: 0 <= i < |init| ==> init[i] == s[i];
      SumBounds(init, lo, hi);
      assert (|s| as real) * lo == (|init| as real) * lo + lo;
      assert (|s| as real) * hi == (|init| as real) * hi + hi;
    }
  }

  /** `statistics.mean(s) if s else 0`, on exact reals. */
  function Mean(s: seq<real>): (m: real)
    ensures s != [] ==> MinOf(s) <= m <= MaxOf(s)
  {
    if s == [] then 0.0
    else
      MeanWithin(s);
      Sum(s) / (|s| as real)
  }

  lemma {:induction false} MeanWithin(s: seq<real>)
    requires s != []
    ensures MinOf(s) <= Sum(s) / (|s| as real) <= MaxOf(s)
  {
    SumBounds(s, MinOf(s), MaxOf(s));
    MeanBetween(Sum(s), |s|, MinOf(s), MaxOf(s));
  }

  /** A total between `n*lo` and `n*hi` gives an average between `lo` and `hi`. */
  lemma MeanBetween(total: real, n: nat, lo: real, hi: real)
    requires n > 0 && (n as real) * lo <= total <= (n as real) * hi
    ensures lo <= total / (n as real) <= hi
  {
    var m := n as real;
    assert total / m - lo == (total - m * lo) / m;
    assert hi - total / m == (m * hi - total) / m;
  }

  predicate SortedAsc(s: seq<real>)
  {
    forall i, j :: 0 <= i < j < |s| ==> s[i] <= s[j]
  }

  function Insert(x: real, s: seq<real>): (r: seq<real>)
    requires SortedAsc(s)
    ensures SortedAsc(r)
    ensures |r| == |s| + 1
    ensures multiset(r) == multiset(s) + multiset{x}
  {
    if s == [] then [x]
    else if x <= s[0] then
      SortedCons(x, s);
      [x] + s
    else
      assert s == [s[0]] + s[1..];
      var rest := Insert(x, s[1..]);
      LowerBoundOfMultiset(s[0], rest, s[1..], x);
      SortedCons(s[0], rest);
      [s[0]] + rest
  }

  /** Putting an element no larger than any of a sorted sequence in front keeps it sorted. */
  lemma SortedCons(a: real, t: seq<real>)
    requires SortedAsc(t) && forall i :: 0 <= i < |t| ==> a <= t[i]
    ensures SortedAsc([a] + t)
  {
    var r := [a] + t;
    forall i, j | 0 <= i < j < |r| ensures r[i] <= r[j] {
      assert r[j] == t[j - 1];
      if i > 0 {
        assert r[i] == t[i - 1];
      }
    }
  }

  /** A lower bound of `u` and of `x` bounds every element of a sequence holding `u` and `x`. */
  lemma LowerBoundOfMultiset(a: real, t: seq<real>, u: seq<real>, x: real)
    requires multiset(t) == multiset(u) + multiset{x}
    requires a <= x && forall i :: 0 <= i < |u| ==> a <= u[i]
    ensures forall i :: 0 <= i < |t| ==> a <= t[i]
  {
    forall i | 0 <= i < |t| ensures a <= t[i] {
      assert t[i] in multiset(t);
      if t[i] != x {
        assert t[i] in multiset(u);
        var k :| 0 <= k < |u| && u[k] == t[i];
      }
    }
  }

  /** Python's `sorted(s)`: ascending, and a permutation of `s`. */
  function Sort(s: seq<real>): (r: seq<real>)
    ensures SortedAsc(r)
    ensures |r| == |s|
    ensures multiset(r) == multiset(s)
  {
    if s == [] then []
    else
      var init := s[..|s| - 1];
      assert s == init + [s[|s| - 1]];
      Insert(s[|s| - 1], Sort(init))
  }

  /** Minimum sample size for reporting a p95 latency. */
  const P95MinSamples: nat := 20

  /** The p95 index `int(n * 0.95)`, i.e. floor(95n/100). */
  function P95Index(n: nat): (k: nat)
    requires n >= P95MinSamples
    ensures k < n
    ensures 100 * k <= 95 * n < 100 * (k + 1)
  {
    (n * 95) / 100
  }

  /** `sorted(t)[int(len(t) * 0.95)] if len(t) >= 20 else "N/A"`. */
  function P95(t: seq<real>): (p: Option<real>)
    ensures p.Some? <==> |t| >= P95MinSamples
    ensures p.Some? ==> p.value == Sort(t)[P95Index(|t|)]
    ensures p.Some? ==> p.value in t && MinOf(t) <= p.value <= MaxOf(t)
  {
    if |t| >= P95MinSamples then
      var sorted := Sort(t);
      var k := P95Index(|t|);
      assert sorted[k] in multiset(sorted);
      Some(sorted[k])
    else None
  }

  /** The sample-size gate: 10 samples give no p95, 25 and 150 samples give one. */
  lemma P95Gating(t: seq<real>)
    ensures |t| == 10 ==> P95(t) == None
    ensures |t| == 25 ==> P95(t) == Some(Sort(t)[23])
    ensures |t| == 150 ==> P95(t) == Some(Sort(t)[142])
  {
    if |t| == 25 {
      assert P95Index(25) == 23;
    } else if |t| == 150 {
      assert P95Index(150) == 142;
    }
  }

  /** Whether sample `x` lies below `v`: strictly, or at or below it when `inclusive`. */
  predicate Below(x: real, v: real, inclusive: bool)
  {
    x < v || (inclusive && x == v)
  }

  /** How many samples of `s` lie below `v`. */
  function CountBelow(s: seq<real>, v: real, inclusive: bool): (c: nat)
    ensures c <= |s|
  {
    if s == [] then 0
    else CountBelow(s[..|s| - 1], v, inclusive) + (if Below(s[|s| - 1], v, inclusive) then 1 else 0)
  }

  lemma {:induction false} CountBelowAppend(a: seq<real>, b: seq<real>, v: real, inclusive: bool)
    ensures CountBelow(a + b, v, inclusive) == CountBelow(a, v, inclusive) + CountBelow(b, v, inclusive)
  {
    if b == [] {
      assert a + b == a;
    } else {
      var n := |b| - 1;
      assert (a + b)[..|a + b| - 1] == a + b[..n];
      CountBelowAppend(a, b[..n], v, inclusive);
    }
  }

  /** A count over samples that all lie below `v` is the number of samples. */
  lemma {:induction false} CountBelowAll(s: seq<real>, v: real, inclusive: bool)
    requires forall i :: 0 <= i < |s| ==> Below(s[i], v, inclusive)
    ensures CountBelow(s, v, inclusive) == |s|
  {
    if s != [] {
      CountBelowAll(s[..|s| - 1], v, inclusive);
    }
  }

  /** A count over samples none of which lies below `v` is zero. */
  lemma {:induction false} CountBelowNone(s: seq<real>, v: real, inclusive: bool)
    requires forall i :: 0 <= i < |s| ==> !Below(s[i], v, inclusive)
    ensures CountBelow(s, v, inclusive) == 0
  {
    if s != [] {
      CountBelowNone(s[..|s| - 1], v, inclusive);
    }
  }

  /** Taking sample `j` out lowers the count by one exactly when that sample is counted. */
  lemma CountBelowRemove(r: seq<real>, j: nat, v: real, inclusive: bool)
    requires j < |r|
    ensures CountBelow(r, v, inclusive) ==
      CountBelow(r[..j] + r[j + 1..], v, inclusive) + (if Below(r[j], v, inclusive) then 1 else 0)
  {
    var front, back := r[..j], r[j + 1..];
    assert r == (front + [r[j]]) + back;
    CountBelowAppend(front + [r[j]], back, v, inclusive);
    CountBelowAppend(front, [r[j]], v, inclusive);
    CountBelowAppend(front, back, v, inclusive);
    assert [r[j]][..0] == [];
  }

  /** The count does not depend on the order of the samples. */
  lemma {:induction false} CountBelowPermutation(s: seq<real>, r: seq<real>, v: real, inclusive: bool)
    requires multiset(s) == multiset(r)
    ensures CountBelow(s, v, inclusive) == CountBelow(r, v, inclusive)
    decreases |s|
  {
    if s == [] {
      assert |r| == |multiset(r)| == 0;
    } else {
      var n := |s| - 1;
      var x := s[n];
      assert s == s[..n] + [x];
      assert x in multiset(r);
      var j :| 0 <= j < |r| && r[j] == x;
      var rest := r[..j] + r[j + 1..];
      assert r == r[..j] + [x] + r[j + 1..];
      assert multiset(r) == multiset(r[..j]) + multiset{x} + multiset(r[j + 1..]);
      assert multiset(rest) == multiset(r[..j]) + multiset(r[j + 1..]);
      assert multiset(s) == multiset(s[..n]) + multiset{x};
      assert multiset(s[..n]) == multiset(s) - multiset{x} == multiset(rest);
      CountBelowPermutation(s[..n], rest, v, inclusive);
      CountBelowRemove(r, j, v, inclusive);
    }
  }

  /** In a sorted sequence, at most `k` elements lie strictly below element `k` and at least
      `k + 1` lie at or below it. */
  lemma SortedOrderStatistic(sorted: seq<real>, k: nat)
    requires SortedAsc(sorted) && k < |sorted|
    ensures CountBelow(sorted, sorted[k], false) <= k
    ensures CountBelow(sorted, sorted[k], true) >= k + 1
  {
    var v := sorted[k];
    var low, high := sorted[..k], sorted[k..];
    assert sorted == low + high;
    forall i | 0 <= i < |high| ensures !Below(high[i], v, false) {
      assert high[i] == sorted[k + i];
    }
    CountBelowAppend(low, high, v, false);
    CountBelowNone(high, v, false);
    var upTo, above := sorted[..k + 1], sorted[k + 1..];
    assert sorted == upTo + above;
    forall i | 0 <= i < |upTo| ensures Below(upTo[i], v, true) {
      assert upTo[i] == sorted[i];
    }
    CountBelowAppend(upTo, above, v, true);
    CountBelowAll(upTo, v, true);
  }

  /** The reported p95 is an order statistic of the samples: with `k` the p95 index, at most `k`
      samples lie strictly below it and at least `k + 1` lie at or below it. */
  lemma P95OrderStatistic(t: seq<real>)
    requires |t| >= P95MinSamples
    ensures var k, v := P95Index(|t|), P95(t).value;
      CountBelow(t, v, false) <= k && CountBelow(t, v, true) >= k + 1
  {
    var sorted := Sort(t);
    var k := P95Index(|t|);
    var v := P95(t).value;
    assert v == sorted[k];
    SortedOrderStatistic(sorted, k);
    CountBelowPermutation(t, sorted, v, false);
    CountBelowPermutation(t, sorted, v, true);
  }

  // ---------------------------------------------------------------- per-endpoint figures

  datatype EndpointStats = EndpointStats(
    requests: nat,
    httpSuccessRate: real,
    businessSuccessRate: real,
    errorCount: nat,
    minResponseTime: real,
    maxResponseTime: real,
    avgResponseTime: real,
    p95ResponseTime: Option<real>)

  /** `c / n if n else 0` for a count `c` out of `n`, with its meaning as a fraction. */
  function Ratio(c: nat, n: nat): (q: real)
    requires c <= n
    ensures 0.0 <= q <= 1.0
    ensures n > 0 ==> q * (n as real) == c as real
    ensures n == 0 ==> q == 0.0
    ensures n > 0 ==> (q == 1.0 <==> c == n)
    ensures q == 0.0 <==> c == 0
  {
    if n > 0 then
      var q := c as real / n as real;
      assert q * (n as real) == c as real;
      assert (q - 1.0) * (n as real) == c as real - n as real;
      q
    else 0.0
  }

  /** The figures of one endpoint's group. */
  function Summarize(endpoint: string, g: seq<Record>): (s: EndpointStats)
    ensures s.requests == |g|
    ensures s.errorCount + CombinedSuccessCount(endpoint, g) == s.requests
    ensures 0.0 <= s.httpSuccessRate <= 1.0 && 0.0 <= s.businessSuccessRate <= 1.0
    ensures s.httpSuccessRate == Ratio(CountIf(g, IsHttpSuccess), |g|)
    ensures s.businessSuccessRate == Ratio(CombinedSuccessCount(endpoint, g), |g|)
    ensures s.avgResponseTime == Mean(Times(g))
    ensures g != [] ==> s.minResponseTime <= s.avgResponseTime <= s.maxResponseTime
    ensures g != [] ==> s.minResponseTime in Times(g) && s.maxResponseTime in Times(g)
    ensures forall i :: 0 <= i < |g| ==> s.minResponseTime <= g[i].responseTime <= s.maxResponseTime
    ensures s.p95ResponseTime == P95(Times(g))
    ensures s.p95ResponseTime.Some? <==> |g| >= P95MinSamples
    ensures s.p95ResponseTime.Some? ==>
      s.p95ResponseTime.value in Times(g) && s.minResponseTime <= s.p95ResponseTime.value <= s.maxResponseTime
    ensures g == [] ==> s.minResponseTime == 0.0 && s.maxResponseTime == 0.0 && s.avgResponseTime == 0.0
  {
    var t := Times(g);
    var http := CountIf(g, IsHttpSuccess);
    var combined := CombinedSuccessCount(endpoint, g);
    var lo, hi, avg, p95 := MinOf(t), MaxOf(t), Mean(t), P95(t);
    assert forall i :: 0 <= i < |g| ==> lo <= t[i] <= hi;
    EndpointStats(|g|, Ratio(http, |g|), Ratio(combined, |g|), |g| - combined, lo, hi, avg, p95)
  }

  // ---------------------------------------------------------------- the run's figures

  datatype RunStats = RunStats(
    testDuration: real,
    totalRequests: nat,
    requestsPerSecond: real,
    concurrentUsers: nat,
    successRate: real,
    endpoints: map<string, EndpointStats>)

  /** Total of the `requests` figures of the endpoints in `keys`. */
  function SumRequests(keys: seq<string>, m: map<string, EndpointStats>): nat
  {
    if keys == [] then 0
    else SumRequests(keys[..|keys| - 1], m) + (if keys[|keys| - 1] in m then m[keys[|keys| - 1]].requests else 0)
  }

  lemma {:induction false} SumRequestsIsSumSizes(keys: seq<string>, m: map<string, EndpointStats>, rs: seq<Record>)
    requires forall k :: k in keys ==> k in m && m[k].requests == |Filter(rs, k)|
    ensures SumRequests(keys, m) == SumSizes(keys, rs)
  {
    if keys != [] {
      SumRequestsIsSumSizes(keys[..|keys| - 1], m, rs);
    }
  }

  /** The per-endpoint loop: one summary per listed endpoint, of that endpoint's group. */
  method SummarizeGroups(groups: map<string, seq<Record>>, order: seq<string>)
    returns (endpoints: map<string, EndpointStats>)
    requires forall k :: k in order ==> k in groups
    ensures forall k :: k in endpoints <==> k in order
    ensures forall k :: k in endpoints ==> endpoints[k] == Summarize(k, groups[k])
  {
    endpoints := map[];
    var j := 0;
    while j < |order|
      invariant 0 <= j <= |order|
      invariant forall k :: k in endpoints <==> k in order[..j]
      invariant forall k :: k in endpoints ==> endpoints[k] == Summarize(k, groups[k])
    {
      var e := order[j];
      assert order[..j + 1] == order[..j] + [e];
      endpoints := endpoints[e := Summarize(e, groups[e])];
      j := j + 1;
    }
    assert order[..j] == order;
  }

  /** A map that summarises every group of the grouping has exactly the endpoints that occur as
      keys, none of them empty, and its request figures add up to the number of records. */
  lemma SummariesOfGroups(results: seq<Record>, order: seq<string>, groups: map<string, seq<Record>>,
                          endpoints: map<string, EndpointStats>)
    requires order == Endpoints(results)
    requires forall k :: k in groups <==> k in order
    requires forall k :: k in groups ==> groups[k] == Filter(results, k)
    requires forall k :: k in endpoints <==> k in order
    requires forall k :: k in endpoints ==> endpoints[k] == Summarize(k, groups[k])
    ensures forall k :: k in endpoints <==> Filter(results, k) != []
    ensures forall k :: k in endpoints ==> endpoints[k] == Summarize(k, Filter(results, k))
    ensures forall k :: k in endpoints ==> endpoints[k].requests > 0
    ensures SumRequests(order, endpoints) == |results|
  {
    forall k ensures k in endpoints <==> Filter(results, k) != [] {
      EndpointsListed(results, k);
    }
    GroupsPartition(results);
    SumRequestsIsSumSizes(order, endpoints, results);
  }

  /** `process_results` without its printing and its JSON file: group, then summarise each
      endpoint. `totalTime` must be non-zero, as the source divides by it. */
  method ProcessResults(results: seq<Record>, totalTime: real, numUsers: nat) returns (stats: RunStats)
    requires totalTime != 0.0
    ensures stats.testDuration == totalTime && stats.concurrentUsers == numUsers
    ensures stats.totalRequests == |results|
    ensures stats.requestsPerSecond == (|results| as real) / totalTime
    ensures stats.successRate == CalculateSuccessRate(results)
    ensures forall k :: k in stats.endpoints <==> k in Endpoints(results)
    ensures forall k :: k in stats.endpoints <==> Filter(results, k) != []
    ensures forall k :: k in stats.endpoints ==> stats.endpoints[k] == Summarize(k, Filter(results, k))
    ensures forall k :: k in stats.endpoints ==> stats.endpoints[k].requests > 0
    ensures SumRequests(Endpoints(results), stats.endpoints) == stats.totalRequests
  {
    var groups, order := GroupByEndpoint(results);
    var endpoints := SummarizeGroups(groups, order);
    SummariesOfGroups(results, order, groups, endpoints);
    stats := RunStats(totalTime, |results|, (|results| as real) / totalTime, numUsers,
                      CalculateSuccessRate(results), endpoints);
  }
}
