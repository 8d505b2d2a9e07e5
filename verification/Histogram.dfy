/** The latency histogram of `master/metrics.rs`, and the load test's reading
    of it in `bench/fleet/loadtest.py`.

    Seconds are reals and counters are unbounded. What a histogram was told is
    kept as a ghost list of observations, so its buckets, its rendered lines
    and its quantiles can each be stated as facts about that list. */
module Histogram {

  /** The `le` bounds, in seconds. */
  const BUCKETS: seq<real> := [
    0.0005, 0.001, 0.0025, 0.005, 0.01, 0.025, 0.05, 0.1, 0.25, 0.5, 1.0, 2.5, 5.0, 10.0
  ]

  /** Edges a histogram can have: positive and strictly increasing. */
  ghost predicate Edges(edges: seq<real>) {
    && |edges| > 0
    && (forall i :: 0 <= i < |edges| ==> edges[i] > 0.0)
    && (forall i, j :: 0 <= i < j < |edges| ==> edges[i] < edges[j])
  }

  lemma BucketsAreEdges()
    ensures Edges(BUCKETS) && |BUCKETS| == 14
  {}

  // ---- which bucket an observation is in ---------------------------------

  /** The first bucket whose bound is at least `s`, or `|edges|` past them
      all. The source asks its library for this partition point. */
  function BucketOf(edges: seq<real>, s: real): (i: nat)
    ensures i <= |edges|
    ensures forall j :: 0 <= j < i ==> edges[j] < s
    ensures i < |edges| ==> s <= edges[i]
  {
    if |edges| == 0 || s <= edges[0] then 0
    else
      var k := BucketOf(edges[1..], s);
      assert forall j :: 0 < j < k + 1 ==> edges[j] == edges[1..][j - 1];
      k + 1
  }

  /** How many of `obs` fall in bucket `i`. */
  function InBucket(edges: seq<real>, obs: seq<real>, i: nat): nat {
    if obs == [] then 0
    else InBucket(edges, obs[..|obs| - 1], i)
         + (if BucketOf(edges, obs[|obs| - 1]) == i then 1 else 0)
  }

  /** How many of `obs` are at most `e`. */
  function AtMost(obs: seq<real>, e: real): (n: nat)
    ensures n <= |obs|
  {
    if obs == [] then 0
    else AtMost(obs[..|obs| - 1], e) + (if obs[|obs| - 1] <= e then 1 else 0)
  }

  /** The counts of a whole list, as the counters hold them. */
  function Counts(edges: seq<real>, obs: seq<real>): (c: seq<nat>)
    ensures |c| == |edges|
  {
    seq(|edges|, i requires 0 <= i < |edges| => InBucket(edges, obs, i))
  }

  /** The sum of the first `k` counts. */
  function Below(c: seq<nat>, k: nat): (n: nat)
    requires k <= |c|
  {
    if k == 0 then 0 else Below(c, k - 1) + c[k - 1]
  }

  lemma {:induction false} BelowMonotone(c: seq<nat>, j: nat, k: nat)
    requires j <= k <= |c|
    ensures Below(c, j) <= Below(c, k)
  {
    if j < k { BelowMonotone(c, j, k - 1); }
  }

  lemma {:induction false} BelowOne(c: seq<nat>, d: seq<nat>, i: nat, k: nat)
    requires |c| == |d| && i < |c| && k <= |c| && d == c[i := c[i] + 1]
    ensures Below(d, k) == Below(c, k) + (if i < k then 1 else 0)
  {
    if k > 0 { BelowOne(c, d, i, k - 1); }
  }

  /** Cumulative counts count the observations at or below an edge. */
  lemma {:induction false} BelowIsAtMost(edges: seq<real>, obs: seq<real>, k: nat)
    requires Edges(edges) && k < |edges|
    ensures Below(Counts(edges, obs), k + 1) == AtMost(obs, edges[k])
  {
    if obs == [] {
      BelowNothing(edges, k + 1);
    } else {
      var rest, s := obs[..|obs| - 1], obs[|obs| - 1];
      BelowIsAtMost(edges, rest, k);
      BelowAppend(edges, rest, s, k + 1);
      assert obs == rest + [s];
    }
  }

  lemma {:induction false} BelowNothing(edges: seq<real>, k: nat)
    requires k <= |edges|
    ensures Below(Counts(edges, []), k) == 0
  {
    if k > 0 { BelowNothing(edges, k - 1); }
  }

  lemma BelowAppend(edges: seq<real>, obs: seq<real>, s: real, k: nat)
    requires k <= |edges|
    ensures Counts(edges, obs + [s])
         == (var i, c := BucketOf(edges, s), Counts(edges, obs);
             if i < |edges| then c[i := c[i] + 1] else c)
    ensures Below(Counts(edges, obs + [s]), k)
         == Below(Counts(edges, obs), k) + (if BucketOf(edges, s) < k then 1 else 0)
  {
    var i, c, d := BucketOf(edges, s), Counts(edges, obs), Counts(edges, obs + [s]);
    assert (obs + [s])[..|obs + [s]| - 1] == obs;
    if i < |edges| {
      assert d == c[i := c[i] + 1];
      BelowOne(c, d, i, k);
    } else {
      assert d == c;
    }
  }

  lemma BelowTotal(edges: seq<real>, obs: seq<real>)
    requires Edges(edges)
    ensures Below(Counts(edges, obs), |edges|) <= |obs|
  {
    BelowIsAtMost(edges, obs, |edges| - 1);
  }

  // ---- recording and rendering --------------------------------------------

  /** The counters, copied. */
  datatype HistSnap = HistSnap(buckets: seq<nat>, count: nat)

  /** The snapshot of a histogram that has been told exactly `obs`. */
  function SnapOf(edges: seq<real>, obs: seq<real>): (s: HistSnap)
    ensures |s.buckets| == |edges| && s.count == |obs|
  {
    HistSnap(Counts(edges, obs), |obs|)
  }

  /** An `le` label: an edge, or `+Inf`. */
  datatype Bound = Fin(edge: real) | Inf

  /** A duration in nanoseconds, as seconds. */
  function Seconds(nanos: nat): real {
    nanos as real / 1000000000.0
  }

  function AllSeconds(taken: seq<nat>): (obs: seq<real>)
    ensures |obs| == |taken|
    ensures forall i :: 0 <= i < |taken| ==> obs[i] == Seconds(taken[i])
  {
    seq(|taken|, i requires 0 <= i < |taken| => Seconds(taken[i]))
  }

  function SumOf(taken: seq<nat>): nat {
    if taken == [] then 0 else SumOf(taken[..|taken| - 1]) + taken[|taken| - 1]
  }

  /** How many of the durations are at most so many nanoseconds. */
  function Within(taken: seq<nat>, nanos: real): nat {
    if taken == [] then 0
    else Within(taken[..|taken| - 1], nanos) + (if taken[|taken| - 1] as real <= nanos then 1 else 0)
  }

  lemma {:induction false} SecondsWithin(taken: seq<nat>, e: real)
    ensures AtMost(AllSeconds(taken), e) == Within(taken, e * 1000000000.0)
  {
    if taken != [] {
      SecondsWithin(taken[..|taken| - 1], e);
      assert AllSeconds(taken)[..|taken| - 1] == AllSeconds(taken[..|taken| - 1]);
    }
  }

  class Histogram {
    const bounds: seq<real>
    var buckets: array<nat>
    var sumNanos: nat
    var count: nat
    /** Every duration so far, oldest first, in nanoseconds and in seconds. */
    ghost var taken: seq<nat>
    ghost var observed: seq<real>

    ghost predicate Valid()
      reads this, buckets
    {
      && Edges(bounds)
      && observed == AllSeconds(taken)
      && buckets[..] == Counts(bounds, observed)
      && sumNanos == SumOf(taken)
      && count == |observed|
    }

    constructor (bounds: seq<real>)
      requires Edges(bounds)
      ensures Valid() && fresh(buckets) && this.bounds == bounds && taken == []
    {
      this.bounds := bounds;
      buckets := new nat[|bounds|](_ => 0);
      sumNanos, count := 0, 0;
      taken, observed := [], [];
      new;
      assert buckets[..] == Counts(bounds, []);
    }

    /** Takes in one duration. */
    method Observe(nanos: nat)
      requires Valid()
      modifies this`count, this`sumNanos, this`taken, this`observed, buckets
      ensures Valid() && taken == old(taken) + [nanos] && observed == old(observed) + [Seconds(nanos)]
    {
      var s := Seconds(nanos);
      var i := BucketOf(bounds, s);
      BelowAppend(bounds, observed, s, 0);
      assert buckets.Length == |buckets[..]| == |bounds|;
      if i < |bounds| {
        buckets[i] := buckets[i] + 1;
      }
      sumNanos := sumNanos + nanos;
      count := count + 1;
      assert (taken + [nanos])[..|taken|] == taken;
      taken := taken + [nanos];
      observed := observed + [s];
      assert observed == AllSeconds(taken);
    }

    /** The counters as they stand. */
    method Snap() returns (s: HistSnap)
      requires Valid()
      ensures s == SnapOf(bounds, observed)
    {
      s := HistSnap(buckets[..], count);
    }

    /** The exposition: each `le` bound with how many observations were at or below it,
        `+Inf` with all of them, then what they add up to in seconds and their count. */
    method Render() returns (rows: seq<(Bound, nat)>, sum: real, total: nat)
      requires Valid()
      ensures sum * 1000000000.0 == SumOf(taken) as real && total == |taken|
      ensures |rows| == |bounds| + 1
      ensures forall i :: 0 <= i < |bounds| ==> rows[i] == (Fin(bounds[i]), AtMost(observed, bounds[i]))
      ensures rows[|bounds|] == (Inf, |observed|)
      ensures forall i :: 0 <= i < |bounds| ==> rows[i].1 == Within(taken, bounds[i] * 1000000000.0)
      ensures rows == Rows(bounds, SnapOf(bounds, observed))
    {
      var acc, i := 0, 0;
      rows := [];
      forall i | 0 <= i < |bounds|
        ensures AtMost(observed, bounds[i]) == Within(taken, bounds[i] * 1000000000.0)
      {
        SecondsWithin(taken, bounds[i]);
      }
      assert buckets.Length == |buckets[..]| == |bounds|;
      while i < |bounds|
        invariant 0 <= i <= |bounds|
        invariant acc == Below(buckets[..], i)
        invariant |rows| == i
        invariant forall k :: 0 <= k < i ==> rows[k] == (Fin(bounds[k]), AtMost(observed, bounds[k]))
        invariant forall k :: 0 <= k < i ==> rows[k] == (Fin(bounds[k]), Below(buckets[..], k + 1))
      {
        acc := acc + buckets[i];
        BelowIsAtMost(bounds, observed, i);
        rows := rows + [(Fin(bounds[i]), acc)];
        i := i + 1;
      }
      rows := rows + [(Inf, count)];
      sum, total := Seconds(sumNanos), count;
    }
  }

  /** The exposition of a snapshot: cumulative counts, then the total. */
  function Rows(edges: seq<real>, s: HistSnap): (rows: seq<(Bound, nat)>)
    requires |s.buckets| == |edges|
    ensures |rows| == |edges| + 1
  {
    seq(|edges| + 1, i requires 0 <= i <= |edges| =>
      if i < |edges| then (Fin(edges[i]), Below(s.buckets, i + 1)) else (Inf, s.count))
  }

  // ---- adding and subtracting snapshots -------------------------------------

  function Saturating(a: nat, b: nat): nat {
    if a < b then 0 else a - b
  }

  /** The later snapshot less the earlier, never below nought. */
  function Since(s: HistSnap, earlier: HistSnap): (r: HistSnap)
    requires |s.buckets| == |earlier.buckets|
    ensures |r.buckets| == |s.buckets|
  {
    HistSnap(seq(|s.buckets|, i requires 0 <= i < |s.buckets| => Saturating(s.buckets[i], earlier.buckets[i])),
             Saturating(s.count, earlier.count))
  }

  function Add(s: HistSnap, o: HistSnap): (r: HistSnap)
    requires |s.buckets| == |o.buckets|
    ensures |r.buckets| == |s.buckets|
  {
    HistSnap(seq(|s.buckets|, i requires 0 <= i < |s.buckets| => s.buckets[i] + o.buckets[i]),
             s.count + o.count)
  }

  lemma {:induction false} InBucketConcat(edges: seq<real>, a: seq<real>, b: seq<real>, i: nat)
    ensures InBucket(edges, a + b, i) == InBucket(edges, a, i) + InBucket(edges, b, i)
  {
    if b == [] {
      assert a + b == a;
    } else {
      var rest := b[..|b| - 1];
      InBucketConcat(edges, a, rest, i);
      assert (a + b)[..|a + b| - 1] == a + rest;
    }
  }

  /** Adding two snapshots is observing both lists. */
  lemma AddMerges(edges: seq<real>, a: seq<real>, b: seq<real>)
    ensures Add(SnapOf(edges, a), SnapOf(edges, b)) == SnapOf(edges, a + b)
  {
    forall i: nat | i < |edges|
      ensures InBucket(edges, a + b, i) == InBucket(edges, a, i) + InBucket(edges, b, i)
    {
      InBucketConcat(edges, a, b, i);
    }
    assert Add(SnapOf(edges, a), SnapOf(edges, b)).buckets == SnapOf(edges, a + b).buckets;
  }

  /** Taking an earlier snapshot away leaves what was observed since. */
  lemma SinceRemovesPrefix(edges: seq<real>, before: seq<real>, later: seq<real>)
    ensures Since(SnapOf(edges, before + later), SnapOf(edges, before)) == SnapOf(edges, later)
  {
    AddMerges(edges, before, later);
    assert Since(SnapOf(edges, before + later), SnapOf(edges, before)).buckets == SnapOf(edges, later).buckets;
  }

  /** Taking a later snapshot away from an earlier leaves nothing, never less. */
  lemma SinceLaterIsNothing(edges: seq<real>, before: seq<real>, later: seq<real>)
    ensures Since(SnapOf(edges, before), SnapOf(edges, before + later)) == SnapOf(edges, [])
  {
    AddMerges(edges, before, later);
    var none := Since(SnapOf(edges, before), SnapOf(edges, before + later));
    forall i | 0 <= i < |edges|
      ensures none.buckets[i] == 0
    {
      assert SnapOf(edges, before + later).buckets[i] >= SnapOf(edges, before).buckets[i];
    }
    assert none.buckets == SnapOf(edges, []).buckets;
  }

  /** One route's name, everything it observed and how often it failed. */
  datatype Route = Route(path: string, obs: seq<real>, serverErrors: nat)

  const NODE_ROUTES := "/v1/node/"

  predicate IsNodeRoute(path: string) {
    NODE_ROUTES <= path
  }

  /** The routes that are not the nodes' own. */
  function ApiRoutes(routes: seq<Route>): seq<Route> {
    if routes == [] then []
    else
      var last := routes[|routes| - 1];
      ApiRoutes(routes[..|routes| - 1]) + (if IsNodeRoute(last.path) then [] else [last])
  }

  function AllObservations(routes: seq<Route>): seq<real> {
    if routes == [] then [] else AllObservations(routes[..|routes| - 1]) + routes[|routes| - 1].obs
  }

  function AllErrors(routes: seq<Route>): nat {
    if routes == [] then 0 else AllErrors(routes[..|routes| - 1]) + routes[|routes| - 1].serverErrors
  }

  /** The sum of what two histograms took is their sums added up, and of one duration it. */
  lemma {:induction false} SumConcat(a: seq<nat>, b: seq<nat>, one: nat)
    ensures SumOf(a + b) == SumOf(a) + SumOf(b) && SumOf([one]) == one
    decreases |b|
  {
    assert [one][..0] == [];
    if b == [] {
      assert a + b == a;
    } else {
      assert (a + b)[..|a + b| - 1] == a + b[..|b| - 1];
      SumConcat(a, b[..|b| - 1], one);
    }
  }

  /** Just the routes whose path does not begin as the nodes' own do, each as often as it
      is there. */
  lemma {:induction false} ApiRoutesAre(routes: seq<Route>, r: Route)
    ensures multiset(ApiRoutes(routes))[r] == if "/v1/node/" <= r.path then 0 else multiset(routes)[r]
    decreases |routes|
  {
    if routes != [] {
      var k := |routes| - 1;
      ApiRoutesAre(routes[..k], r);
      assert routes == routes[..k] + [routes[k]];
    }
  }

  /** What several routes observed and how often they failed is what each did, added up. */
  lemma {:induction false} RoutesAddUp(a: seq<Route>, b: seq<Route>, r: Route)
    ensures AllErrors(a + b) == AllErrors(a) + AllErrors(b) && AllErrors([r]) == r.serverErrors
    ensures AllObservations(a + b) == AllObservations(a) + AllObservations(b) && AllObservations([r]) == r.obs
    decreases |b|
  {
    assert [r][..0] == [];
    if b == [] {
      assert a + b == a;
    } else {
      assert (a + b)[..|a + b| - 1] == a + b[..|b| - 1];
      RoutesAddUp(a, b[..|b| - 1], r);
    }
  }

  lemma OneMoreRoute(routes: seq<Route>, r: Route)
    ensures AllObservations(routes + [r]) == AllObservations(routes) + r.obs
    ensures AllErrors(routes + [r]) == AllErrors(routes) + r.serverErrors
  {
    assert (routes + [r])[..|routes|] == routes;
  }

  /** Every route's snapshot folded into one and their failures added, the node routes
      left out. */
  method ApiSnap(edges: seq<real>, routes: seq<Route>) returns (all: HistSnap, errors: nat)
    ensures all == SnapOf(edges, AllObservations(ApiRoutes(routes)))
    ensures errors == AllErrors(ApiRoutes(routes))
  {
    all, errors := HistSnap(seq(|edges|, _ => 0), 0), 0;
    assert all.buckets == Counts(edges, []);
    for i := 0 to |routes|
      invariant all == SnapOf(edges, AllObservations(ApiRoutes(routes[..i])))
      invariant errors == AllErrors(ApiRoutes(routes[..i]))
    {
      var r := routes[i];
      assert routes[..i + 1][..i] == routes[..i];
      if IsNodeRoute(r.path) {
        assert ApiRoutes(routes[..i]) + [] == ApiRoutes(routes[..i]);
        continue;
      }
      OneMoreRoute(ApiRoutes(routes[..i]), r);
      AddMerges(edges, AllObservations(ApiRoutes(routes[..i])), r.obs);
      all := Add(all, SnapOf(edges, r.obs));
      errors := errors + r.serverErrors;
    }
    assert routes[..|routes|] == routes;
  }
}
