/** Reading a quantile off a histogram, the two ways the repository does it:
    `HistSnap::quantile` from a snapshot's own counts, and the load test's
    `histogram_quantile` from the cumulative lines it scraped. */
module Quantile {
  import opened Wrappers
  import opened Histogram
  import opened Reals

  /** The lower end of bucket `i`. */
  function Lo(edges: seq<real>, i: nat): real
    requires i <= |edges|
  {
    if i == 0 then 0.0 else edges[i - 1]
  }

  // ---- HistSnap::quantile ----------------------------------------------------

  /** Where in bucket `i` the `want`-th observation is taken to be. */
  function Inside(edges: seq<real>, b: seq<nat>, want: real, i: nat): real
    requires i < |edges| == |b| && b[i] > 0
  {
    Part(Lo(edges, i), edges[i], want - Below(b, i) as real, b[i] as real)
  }

  /** How many observations a quantile asks for. */
  function Want(q: real, n: nat): (w: real)
    ensures 0.0 <= w <= n as real
    ensures q <= 0.0 ==> w == 0.0
    ensures q > 0.0 && n > 0 ==> w > 0.0
    ensures 0.0 <= q <= 1.0 ==> w == Mul(q, n as real)
  {
    var f := Clamp(q, 0.0, 1.0);
    assert Mul(f, n as real) + Mul(1.0 - f, n as real) == n as real;
    Mul(f, n as real)
  }

  function SnapFrom(edges: seq<real>, b: seq<nat>, want: real, i: nat): real
    requires i <= |edges| == |b| && |edges| > 0
    decreases |edges| - i
  {
    if i == |edges| then edges[|edges| - 1]
    else if b[i] > 0 && (Below(b, i) + b[i]) as real >= want then Inside(edges, b, want, i)
    else SnapFrom(edges, b, want, i + 1)
  }

  function SnapQuantile(edges: seq<real>, s: HistSnap, q: real): Option<real>
    requires |edges| == |s.buckets| > 0
  {
    if s.count == 0 then None
    else Some(SnapFrom(edges, s.buckets, Want(q, s.count), 0))
  }

  /** The master's reading: the bucket that reaches `q` of the count, cut in proportion. */
  method SnapshotQuantile(edges: seq<real>, s: HistSnap, q: real) returns (r: Option<real>)
    requires |edges| == |s.buckets| > 0
    ensures r == SnapQuantile(edges, s, q)
  {
    if s.count == 0 {
      return None;
    }
    var want := Want(q, s.count);
    var acc, i := 0, 0;
    while i < |s.buckets|
      invariant 0 <= i <= |s.buckets|
      invariant acc == Below(s.buckets, i)
      invariant SnapFrom(edges, s.buckets, want, i) == SnapFrom(edges, s.buckets, want, 0)
    {
      var n := s.buckets[i];
      if n > 0 && (acc + n) as real >= want {
        var lo := if i == 0 then 0.0 else edges[i - 1];
        return Some(Part(lo, edges[i], want - acc as real, n as real));
      }
      acc := acc + n;
      i := i + 1;
    }
    return Some(edges[|edges| - 1]);
  }

  // ---- the load test's histogram_quantile ---------------------------------------

  predicate BoundLe(a: Bound, b: Bound) {
    b.Inf? || (a.Fin? && a.edge <= b.edge)
  }

  /** Lines in the order the load test sorts them into. */
  predicate InOrder(rows: seq<(Bound, nat)>) {
    forall i, j :: 0 <= i < j < |rows| ==> BoundLe(rows[i].0, rows[j].0)
  }

  function Before(rows: seq<(Bound, nat)>, i: nat): (Bound, nat)
    requires i <= |rows|
  {
    if i == 0 then (Fin(0.0), 0) else rows[i - 1]
  }

  /** No line before `i` has reached the target. */
  predicate NotYet(rows: seq<(Bound, nat)>, target: real, i: nat)
    requires i <= |rows|
  {
    i > 0 ==> rows[i - 1].1 as real < target
  }

  /** What the scan answers at line `i`, the first to reach the target. */
  function AtRow(rows: seq<(Bound, nat)>, target: real, i: nat): Bound
    requires i < |rows| && InOrder(rows) && NotYet(rows, target, i) && rows[i].1 as real >= target
  {
    var (prevEdge, prevCount) := Before(rows, i);
    var (edge, count) := rows[i];
    if edge.Inf? then prevEdge
    else if count == prevCount then edge
    else
      assert i > 0 ==> BoundLe(rows[i - 1].0, rows[i].0);
      Fin(Spread(prevEdge.edge, edge.edge, target - prevCount as real, count as real - prevCount as real))
  }

  function ScanFrom(rows: seq<(Bound, nat)>, target: real, i: nat): Bound
    requires i <= |rows| && |rows| > 0 && InOrder(rows) && NotYet(rows, target, i)
    decreases |rows| - i
  {
    if i == |rows| then rows[|rows| - 1].0
    else if rows[i].1 as real >= target then AtRow(rows, target, i)
    else ScanFrom(rows, target, i + 1)
  }

  function ScanQuantile(rows: seq<(Bound, nat)>, q: real): Option<Bound>
    requires InOrder(rows)
  {
    if rows == [] then None
    else
      var total := rows[|rows| - 1].1;
      if total == 0 then Some(Fin(0.0)) else Some(ScanFrom(rows, Mul(q, total as real), 0))
  }

  /** The quantile of one scraped series, its lines sorted by bound. */
  method HistogramQuantile(rows: seq<(Bound, nat)>, q: real) returns (r: Option<Bound>)
    requires InOrder(rows)
    ensures r == ScanQuantile(rows, q)
  {
    hide Spread, Mul;
    if rows == [] {
      return None;
    }
    var total := rows[|rows| - 1].1;
    if total == 0 {
      return Some(Fin(0.0));
    }
    var target := Mul(q, total as real);
    var prevEdge, prevCount := Fin(0.0), 0;
    var i := 0;
    while i < |rows|
      invariant 0 <= i <= |rows| && NotYet(rows, target, i)
      invariant prevEdge == Before(rows, i).0 && prevCount == Before(rows, i).1
      invariant ScanFrom(rows, target, i) == ScanFrom(rows, target, 0)
    {
      var edge, count := rows[i].0, rows[i].1;
      if count as real >= target {
        assert ScanFrom(rows, target, i) == AtRow(rows, target, i);
        if edge.Inf? {
          return Some(prevEdge);
        }
        if count == prevCount {
          return Some(edge);
        }
        assert i > 0 ==> BoundLe(rows[i - 1].0, rows[i].0);
        return Some(Fin(Spread(prevEdge.edge, edge.edge, target - prevCount as real,
                               count as real - prevCount as real)));
      }
      prevEdge, prevCount := edge, count;
      i := i + 1;
    }
    return Some(rows[|rows| - 1].0);
  }

  lemma RowsInOrder(edges: seq<real>, s: HistSnap)
    requires Edges(edges) && |s.buckets| == |edges|
    ensures InOrder(Rows(edges, s))
  {}

  // ---- the two agree, and exactly when --------------------------------------------

  /** A snapshot whose buckets hold no more than its count. */
  predicate Consistent(edges: seq<real>, s: HistSnap) {
    |s.buckets| == |edges| && Below(s.buckets, |edges|) <= s.count
  }

  lemma {:induction false} SameFrom(edges: seq<real>, s: HistSnap, want: real, i: nat)
    requires Edges(edges) && Consistent(edges, s) && i <= |edges| && InOrder(Rows(edges, s))
    requires Below(s.buckets, i) as real < want <= s.count as real
    ensures NotYet(Rows(edges, s), want, i)
    ensures ScanFrom(Rows(edges, s), want, i) == Fin(SnapFrom(edges, s.buckets, want, i))
    decreases |edges| - i
  {
    hide Spread, Part;
    var rows, b := Rows(edges, s), s.buckets;
    if i < |edges| {
      if Below(b, i + 1) as real >= want {
        assert b[i] > 0;
        SpreadIsPart(Lo(edges, i), edges[i], want - Below(b, i) as real, b[i] as real);
        assert Before(rows, i) == (Fin(Lo(edges, i)), Below(b, i));
      } else {
        SameFrom(edges, s, want, i + 1);
      }
    }
  }

  /** The first bucket that holds anything, or `|b|`. */
  function FirstHeld(b: seq<nat>): (f: nat)
    ensures f <= |b|
    ensures forall j :: 0 <= j < f ==> b[j] == 0
    ensures f < |b| ==> b[f] > 0
  {
    if b == [] then 0
    else if b[0] > 0 then 0
    else
      var k := FirstHeld(b[1..]);
      assert forall j :: 0 < j < |b| ==> b[j] == b[1..][j - 1];
      k + 1
  }

  lemma {:induction false} BelowZero(b: seq<nat>, f: nat, k: nat)
    requires k <= f <= |b| && (forall j :: 0 <= j < f ==> b[j] == 0)
    ensures Below(b, k) == 0
  {
    if k > 0 { BelowZero(b, f, k - 1); }
  }

  /** At a quantile of nought the snapshot answers the low end of the first
      bucket that holds anything. */
  lemma {:induction false} SnapAtZero(edges: seq<real>, b: seq<nat>, i: nat)
    requires |edges| == |b| > 0 && i <= FirstHeld(b)
    ensures SnapFrom(edges, b, 0.0, i) == Lo(edges, FirstHeld(b))
    decreases |b| - i
  {
    hide Part;
    var f := FirstHeld(b);
    BelowZero(b, f, i);
    if i < f {
      SnapAtZero(edges, b, i + 1);
    }
  }

  /** Both readings agree that the answer is one and the same number. */
  predicate Agree(edges: seq<real>, s: HistSnap, q: real)
    requires |edges| == |s.buckets| > 0 && InOrder(Rows(edges, s))
  {
    match SnapQuantile(edges, s, q)
    case None => false
    case Some(v) => ScanQuantile(Rows(edges, s), q) == Some(Fin(v))
  }

  /** For a real quantile of a histogram that has observed something, the
      load test reads off the scrape what the master's console shows. */
  lemma ReadingsAgree(edges: seq<real>, s: HistSnap, q: real)
    requires Edges(edges) && Consistent(edges, s) && s.count > 0 && 0.0 < q <= 1.0
    ensures InOrder(Rows(edges, s)) && Agree(edges, s, q)
  {
    hide Part, Spread, Mul, Want;
    RowsInOrder(edges, s);
    SameFrom(edges, s, Want(q, s.count), 0);
  }

  lemma {:induction false} PastTheEnd(edges: seq<real>, s: HistSnap, target: real, i: nat)
    requires Edges(edges) && Consistent(edges, s) && i <= |edges| + 1 && InOrder(Rows(edges, s))
    requires target > s.count as real && NotYet(Rows(edges, s), target, i)
    ensures ScanFrom(Rows(edges, s), target, i) == Inf
    decreases |edges| + 1 - i
  {
    if i < |edges| { BelowMonotone(s.buckets, i + 1, |edges|); }
    if i <= |edges| { PastTheEnd(edges, s, target, i + 1); }
  }

  /** Exactly when they agree, over every snapshot and every `q`: outside
      (0, 1] the scrape is read without the clamp, and at nought or below it
      looks at the first line rather than the first bucket with a count. */
  lemma ReadingsAgreeExactly(edges: seq<real>, s: HistSnap, q: real)
    requires Edges(edges) && Consistent(edges, s)
    ensures InOrder(Rows(edges, s))
    ensures Agree(edges, s, q) <==>
              && s.count > 0
              && ( || 0.0 < q <= 1.0
                   || (q == 0.0 && FirstHeld(s.buckets) <= 1)
                   || (q < 0.0 && FirstHeld(s.buckets) == 1))
  {
    hide Part, Spread, Mul, Want;
    RowsInOrder(edges, s);
    if s.count > 0 {
      if 0.0 < q <= 1.0 {
        ReadingsAgree(edges, s, q);
      } else if q > 1.0 {
        BeyondOne(q, s.count as real);
        PastTheEnd(edges, s, Mul(q, s.count as real), 0);
      } else {
        var b := s.buckets;
        SnapAtZero(edges, b, 0);
        ScanAtZero(edges, s, Mul(q, s.count as real));
      }
    }
  }

  lemma BeyondOne(q: real, n: real)
    requires q > 1.0 && n > 0.0
    ensures Mul(q, n) > n
  {
    assert Mul(q, n) == Mul(q - 1.0, n) + n;
  }

  /** With nothing to reach, the scan answers from its first line. */
  lemma ScanAtZero(edges: seq<real>, s: HistSnap, target: real)
    requires Edges(edges) && Consistent(edges, s) && InOrder(Rows(edges, s)) && target <= 0.0
    ensures ScanFrom(Rows(edges, s), target, 0)
         == Fin(if s.buckets[0] == 0 then edges[0] else Spread(0.0, edges[0], target, s.buckets[0] as real))
    ensures s.buckets[0] > 0 && target == 0.0 ==> Spread(0.0, edges[0], target, s.buckets[0] as real) == 0.0
    ensures s.buckets[0] > 0 && target < 0.0 ==> Spread(0.0, edges[0], target, s.buckets[0] as real) < 0.0
  {
    hide Part;
    assert Below(s.buckets, 1) == s.buckets[0];
    assert Rows(edges, s)[0] == (Fin(edges[0]), s.buckets[0]);
    if s.buckets[0] > 0 && target < 0.0 {
      SpreadBelow(edges[0], target, s.buckets[0] as real);
    }
  }

  // ---- what the answer means ------------------------------------------------------

  /** The least whole number of observations that makes up `want`. */
  function Ceil(want: real): int {
    -((-want).Floor)
  }

  predicate Sorted(xs: seq<real>) {
    forall i, j :: 0 <= i < j < |xs| ==> xs[i] <= xs[j]
  }

  lemma {:induction false} AtMostConcat(a: seq<real>, b: seq<real>, e: real)
    ensures AtMost(a + b, e) == AtMost(a, e) + AtMost(b, e)
  {
    if b == [] {
      assert a + b == a;
    } else {
      AtMostConcat(a, b[..|b| - 1], e);
      assert (a + b)[..|a + b| - 1] == a + b[..|b| - 1];
    }
  }

  /** Counting does not depend on the order things were observed in. */
  lemma {:induction false} AtMostPermuted(a: seq<real>, b: seq<real>, e: real)
    requires multiset(a) == multiset(b)
    ensures AtMost(a, e) == AtMost(b, e)
  {
    if a == [] {
      assert |multiset(b)| == 0;
    } else {
      var s, rest := a[|a| - 1], a[..|a| - 1];
      assert a == rest + [s];
      assert s in multiset(a);
      var l, r := Without(b, s);
      assert multiset(rest) == multiset(a) - multiset{s} == multiset(l + r);
      AtMostPermuted(rest, l + r, e);
      AtMostMiddle(l, s, r, e);
    }
  }

  lemma Without(b: seq<real>, s: real) returns (l: seq<real>, r: seq<real>)
    requires s in b
    ensures b == l + [s] + r && |l + r| == |b| - 1
    ensures multiset(b) == multiset(l + r) + multiset{s}
  {
    var j :| 0 <= j < |b| && b[j] == s;
    l, r := b[..j], b[j + 1..];
    assert b == l + [s] + r;
  }

  lemma AtMostMiddle(l: seq<real>, s: real, r: seq<real>, e: real)
    ensures AtMost(l + [s] + r, e) == AtMost(l + r, e) + (if s <= e then 1 else 0)
  {
    hide AtMost;
    AtMostConcat(l, r, e);
    AtMostConcat(l, [s], e);
    AtMostConcat(l + [s], r, e);
    AtMostOne(s, e);
  }

  lemma AtMostOne(s: real, e: real)
    ensures AtMost([s], e) == if s <= e then 1 else 0
  {
    assert [s][..0] == [];
  }

  /** In a sorted list, `e` is reached by rank `k` exactly when the `k`-th
      smallest is at most `e`. */
  lemma {:induction false} RankInSorted(xs: seq<real>, e: real, k: nat)
    requires Sorted(xs) && 1 <= k <= |xs|
    ensures AtMost(xs, e) >= k <==> xs[k - 1] <= e
  {
    var rest, last := xs[..|xs| - 1], xs[|xs| - 1];
    if k < |xs| {
      RankInSorted(rest, e, k);
      assert xs[k - 1] <= last;
    } else if last <= e && |xs| > 1 {
      RankInSorted(rest, e, k - 1);
      assert rest[k - 2] <= last;
    }
  }

  /** The scan stops in bucket `i` when `want` is reached there first. */
  lemma {:induction false} SnapStops(edges: seq<real>, b: seq<nat>, want: real, j: nat, i: nat)
    requires |edges| == |b| > 0 && j <= i <= |edges| && want > 0.0
    requires forall k :: 0 <= k <= i ==> Below(b, k) as real < want
    requires i < |edges| ==> Below(b, i + 1) as real >= want
    ensures i < |edges| ==> b[i] > 0 && SnapFrom(edges, b, want, j) == Inside(edges, b, want, i)
    ensures i == |edges| ==> SnapFrom(edges, b, want, j) == edges[|edges| - 1]
    decreases i - j
  {
    hide Part;
    assert Below(b, i) as real < want;
    if j < i {
      assert Below(b, j + 1) as real < want;
      SnapStops(edges, b, want, j + 1, i);
    }
  }

  /** The quantile is in the bucket of the observation it stands for, the
      least one that makes up `q` of them all; past the last bucket it is the
      last edge. For every list of observations and every order of them. */
  lemma QuantileInBucket(edges: seq<real>, obs: seq<real>, xs: seq<real>, q: real)
    requires Edges(edges) && obs != [] && 0.0 < q <= 1.0
    requires Sorted(xs) && multiset(xs) == multiset(obs)
    ensures var r := Ceil(Mul(q, |obs| as real));
            1 <= r <= |obs| == |xs|
            && var i, v := BucketOf(edges, xs[r - 1]), SnapQuantile(edges, SnapOf(edges, obs), q);
            v.Some?
            && (i < |edges| ==> Lo(edges, i) < v.value <= edges[i])
            && (i == |edges| ==> v.value == edges[|edges| - 1])
  {
    hide Part, Want, Mul, BucketOf;
    assert |multiset(xs)| == |xs| && |multiset(obs)| == |obs|;
    var want := Want(q, |obs|);
    CeilBounds(want, |obs|);
    var r := Ceil(want);
    var i, b := BucketOf(edges, xs[r - 1]), Counts(edges, obs);
    forall k | 0 <= k <= |edges|
      ensures k > 0 ==> (Below(b, k) as real >= want <==> xs[r - 1] <= edges[k - 1])
      ensures k <= i ==> Below(b, k) as real < want
    {
      if k > 0 {
        BelowIsAtMost(edges, obs, k - 1);
        AtMostPermuted(obs, xs, edges[k - 1]);
        RankInSorted(xs, edges[k - 1], r);
        CeilReached(want, Below(b, k));
      }
    }
    SnapStops(edges, b, want, 0, i);
    if i < |edges| {
      LoBelow(edges, i);
    }
  }

  /** In its bucket the value is as far from the lower edge to the upper as the rank asked
      for is from the count below the bucket to the count through it. */
  lemma QuantileInterpolates(edges: seq<real>, s: HistSnap, q: real, i: nat)
    requires Edges(edges) && |s.buckets| == |edges| && s.count > 0 && 0.0 < q <= 1.0 && i < |edges|
    requires Below(s.buckets, i) as real < Mul(q, s.count as real) <= Below(s.buckets, i + 1) as real
    ensures var want, below, v := Mul(q, s.count as real), Below(s.buckets, i) as real, SnapQuantile(edges, s, q).value;
            Mul(v - Lo(edges, i), s.buckets[i] as real) == Mul(edges[i] - Lo(edges, i), want - below)
  {
    hide Part, Mul;
    var want := Want(q, s.count);
    forall k | 0 <= k <= i
      ensures Below(s.buckets, k) as real < want
    {
      BelowMonotone(s.buckets, k, i);
    }
    SnapStops(edges, s.buckets, want, 0, i);
    PartIsShare(Lo(edges, i), edges[i], want - Below(s.buckets, i) as real, s.buckets[i] as real);
  }

  lemma PartIsShare(lo: real, hi: real, x: real, n: real)
    requires 0.0 <= x <= n && n > 0.0
    ensures Mul(Part(lo, hi, x, n) - lo, n) == Mul(hi - lo, x)
  {
    var f := x / n;
    assert Mul(f, n) == x;
    assert Part(lo, hi, x, n) - lo == Mul(hi - lo, f);
    assert ((hi - lo) * f) * n == (hi - lo) * (f * n);
  }

  lemma LoBelow(edges: seq<real>, i: nat)
    requires Edges(edges) && i < |edges|
    ensures Lo(edges, i) < edges[i]
  {}

  lemma CeilBounds(want: real, n: nat)
    requires 0.0 < want <= n as real
    ensures 1 <= Ceil(want) <= n
  {}

  lemma CeilReached(want: real, c: nat)
    ensures c as real >= want <==> c >= Ceil(want)
  {}

  lemma {:induction false} SnapAtLeast(edges: seq<real>, b: seq<nat>, want: real, i: nat)
    requires Edges(edges) && |edges| == |b| && i <= |edges|
    ensures SnapFrom(edges, b, want, i) >= Lo(edges, i)
    decreases |edges| - i
  {
    hide Part;
    if i < |edges| {
      LoBelow(edges, i);
      if b[i] == 0 || (Below(b, i) + b[i]) as real < want {
        SnapAtLeast(edges, b, want, i + 1);
      }
    }
  }

  lemma {:induction false} SnapMonotone(edges: seq<real>, b: seq<nat>, w1: real, w2: real, i: nat)
    requires Edges(edges) && |edges| == |b| && i <= |edges| && w1 <= w2
    ensures SnapFrom(edges, b, w1, i) <= SnapFrom(edges, b, w2, i)
    decreases |edges| - i
  {
    hide Part;
    if i < |edges| {
      LoBelow(edges, i);
      if b[i] > 0 && (Below(b, i) + b[i]) as real >= w1 {
        if (Below(b, i) + b[i]) as real >= w2 {
          var acc := Below(b, i) as real;
          PartMonotone(Lo(edges, i), edges[i], w1 - acc, w2 - acc, b[i] as real);
        } else {
          SnapAtLeast(edges, b, w2, i + 1);
        }
      } else {
        SnapMonotone(edges, b, w1, w2, i + 1);
      }
    }
  }

  /** A larger quantile is never a smaller number of seconds, for every `q`. */
  lemma QuantileMonotone(edges: seq<real>, s: HistSnap, p: real, q: real)
    requires Edges(edges) && |s.buckets| == |edges| && s.count > 0 && p <= q
    ensures SnapQuantile(edges, s, p).value <= SnapQuantile(edges, s, q).value
  {
    hide Part, Want;
    WantMonotone(p, q, s.count);
    SnapMonotone(edges, s.buckets, Want(p, s.count), Want(q, s.count), 0);
  }

  lemma WantMonotone(p: real, q: real, n: nat)
    requires p <= q
    ensures Want(p, n) <= Want(q, n)
  {
    MulBelow(Clamp(p, 0.0, 1.0), Clamp(q, 0.0, 1.0), n as real);
  }

  /** End to end: whatever was observed, scraping the rendered histogram and
      reading it gives the quantile the master computes. */
  lemma ScrapeMatchesMaster(edges: seq<real>, obs: seq<real>, q: real)
    requires Edges(edges) && obs != [] && 0.0 < q <= 1.0
    ensures var s := SnapOf(edges, obs);
            InOrder(Rows(edges, s)) && Agree(edges, s, q)
  {
    BelowTotal(edges, obs);
    ReadingsAgree(edges, SnapOf(edges, obs), q);
  }
}
