/** What the drawn path is, said of the data alone: it is tangent to a parabola the data
    lies on, follows data on a line, is level at every turn, and starts from slopes
    that read the same in either direction. */
module Tangents {
  import opened Reals
  import opened Charts

  // ---- the slopes the loop starts from ---------------------------------------------

  /** The height and the slope of `c x^2 + b x + a` at `x`. */
  function Height(a: real, b: real, c: real, x: real): real {
    a + Mul(b, x) + Mul(c, Sq(x))
  }

  function Tangent(b: real, c: real, x: real): real {
    b + 2.0 * Mul(c, x)
  }

  predicate OnParabola(points: seq<Point>, a: real, b: real, c: real) {
    forall i :: 0 <= i < |points| ==> points[i].y == Height(a, b, c, points[i].x)
  }

  /** Every step is as wide as the first, and to the right. */
  ghost predicate Even(points: seq<Point>, h: real) {
    h > 0.0 && forall i, j :: 0 <= i && j == i + 1 && j < |points| ==> points[j].x - points[i].x == h
  }

  /** The data rises on both sides of this point, or falls on both. */
  predicate GoesOn(points: seq<Point>, k: nat)
    requires 0 < k < |points| - 1
  {
    || points[k - 1].y < points[k].y < points[k + 1].y
    || points[k - 1].y > points[k].y > points[k + 1].y
  }

  /** Strictly to the right at every step. */
  ghost predicate Rightward(points: seq<Point>) {
    forall i, j :: 0 <= i && j == i + 1 && j < |points| ==> points[i].x < points[j].x
  }

  lemma SecantOfStep(p: Point, q: Point, h: real)
    requires q.x - p.x == h && h > 0.0
    ensures Mul(Secant(p, q), h) == q.y - p.y
    ensures Secant(p, q) > 0.0 <==> q.y > p.y
    ensures Secant(p, q) < 0.0 <==> q.y < p.y
  {
    SecantRise(p, q);
  }

  lemma SameQuotient(s: real, t: real, h: real)
    requires h != 0.0 && Mul(s, h) == Mul(t, h)
    ensures s == t
  {
    assert Mul(s, h) - Mul(t, h) == Mul(s - t, h);
  }

  lemma ParabolaStep(a: real, b: real, c: real, x: real, h: real)
    ensures Height(a, b, c, x + h) - Height(a, b, c, x) == Mul(b + 2.0 * Mul(c, x) + Mul(c, h), h)
  {}

  /** A secant of a parabola is its tangent halfway. */
  lemma SecantIsTangent(p: Point, q: Point, a: real, b: real, c: real, h: real)
    requires h > 0.0 && q.x == p.x + h
    requires p.y == Height(a, b, c, p.x) && q.y == Height(a, b, c, q.x)
    ensures Secant(p, q) == Tangent(b, c, p.x) + Mul(c, h)
  {
    hide Height;
    ParabolaStep(a, b, c, p.x, h);
    SecantOfStep(p, q, h);
    SameQuotient(Secant(p, q), Tangent(b, c, p.x) + Mul(c, h), h);
  }

  /** Through evenly spaced data on a parabola the loop starts at the parabola's own slope
      wherever the data goes on rising or falling. Any two secants are those of such
      data, so this says what the slope between any two is. */
  lemma StartIsTangent(points: seq<Point>, a: real, b: real, c: real, h: real, k: nat)
    requires OnParabola(points, a, b, c) && Even(points, h) && 0 < k < |points| - 1 && GoesOn(points, k)
    ensures StartSlopes(Secants(points))[k] == Tangent(b, c, points[k].x)
  {
    hide Height, Mul, Secant, OnParabola, Tangent, Between;
    var p, q, r := points[k - 1], points[k], points[k + 1];
    StartInside(Secants(points), k);
    ParabolaAt(points, a, b, c, k - 1);
    ParabolaAt(points, a, b, c, k);
    ParabolaAt(points, a, b, c, k + 1);
    SecantIsTangent(p, q, a, b, c, h);
    SecantIsTangent(q, r, a, b, c, h);
    SecantOfStep(p, q, h);
    SecantOfStep(q, r, h);
    TangentMoves(b, c, p.x, h);
    BetweenSameSigned(Secant(p, q), Secant(q, r));
  }

  lemma ParabolaAt(points: seq<Point>, a: real, b: real, c: real, i: nat)
    requires OnParabola(points, a, b, c) && i < |points|
    ensures points[i].y == Height(a, b, c, points[i].x)
  {}

  lemma TangentMoves(b: real, c: real, x: real, h: real)
    ensures Tangent(b, c, x + h) == Tangent(b, c, x) + 2.0 * Mul(c, h)
  {}

  lemma BetweenSameSigned(d: real, e: real)
    requires (d > 0.0 && e > 0.0) || (d < 0.0 && e < 0.0)
    ensures 2.0 * Between(d, e) == d + e
  {
    assert Mul(d, e) > 0.0;
  }

  lemma BetweenOpposed(d: real, e: real)
    requires !(d > 0.0 && e > 0.0) && !(d < 0.0 && e < 0.0)
    ensures Between(d, e) == 0.0
  {
    assert Mul(d, e) <= 0.0;
  }

  lemma StartInside(d: seq<real>, k: nat)
    requires 0 < k < |d|
    ensures StartSlopes(d)[k] == Between(d[k - 1], d[k])
  {}

  /** Where the data turns, or is flat on one side, it starts level. */
  lemma StartIsLevel(points: seq<Point>, k: nat)
    requires Rightward(points) && 0 < k < |points| - 1 && !GoesOn(points, k)
    ensures StartSlopes(Secants(points))[k] == 0.0
  {
    hide Secant, Between, Mul;
    var p, q, r := points[k - 1], points[k], points[k + 1];
    StartInside(Secants(points), k);
    SecantOfStep(p, q, q.x - p.x);
    SecantOfStep(q, r, r.x - q.x);
    BetweenOpposed(Secant(p, q), Secant(q, r));
  }

  lemma StartEnds(d: seq<real>)
    requires |d| >= 1
    ensures StartSlopes(d)[0] == d[0] && StartSlopes(d)[|d|] == d[|d| - 1]
  {}

  /** At the two ends it is the secant there. */
  lemma StartAtEnds(points: seq<Point>)
    requires Rightward(points) && |points| >= 2
    ensures var m, n := StartSlopes(Secants(points)), |points|;
            && Mul(m[0], points[1].x - points[0].x) == points[1].y - points[0].y
            && Mul(m[n - 1], points[n - 1].x - points[n - 2].x) == points[n - 1].y - points[n - 2].y
  {
    hide Secant, Mul, Between, StartSlopes;
    var n := |points|;
    StartEnds(Secants(points));
    SecantOfStep(points[0], points[1], points[1].x - points[0].x);
    SecantOfStep(points[n - 2], points[n - 1], points[n - 1].x - points[n - 2].x);
  }

  /** A step of no width is drawn as one of a billionth. */
  lemma NoWidthIsNarrow(p: Point, q: Point)
    requires p.x == q.x
    ensures Secant(p, q) == Secant(Point(0.0, p.y), Point(0.000000001, q.y))
  {}

  function Backwards(s: seq<real>): (r: seq<real>)
    ensures |r| == |s|
    ensures forall i :: 0 <= i < |s| ==> r[i] == s[|s| - 1 - i]
  {
    seq(|s|, i requires 0 <= i < |s| => s[|s| - 1 - i])
  }

  /** Read from the other end the starting slopes are the same ones. */
  lemma StartMirrors(d: seq<real>)
    requires |d| >= 1
    ensures StartSlopes(Backwards(d)) == Backwards(StartSlopes(d))
  {
    hide Between;
    forall k | 0 < k < |d|
      ensures Between(d[k - 1], d[k]) == Between(d[k], d[k - 1])
    {
      BetweenSwaps(d[k - 1], d[k]);
    }
  }

  lemma BetweenSwaps(d: real, e: real)
    ensures Between(d, e) == Between(e, d)
  {
    assert d * e == e * d;
  }

  // ---- what limiting leaves alone ------------------------------------------------------

  /** A pair of slopes inside its circle is left as it is. */
  lemma InsideStays(root: real -> real, d: real, l: real, r: real)
    requires IsSqrt(root) && InCircle(d, l, r)
    ensures LimitPair(root, d, l, r) == (l, r)
  {
    hide Agrees, Sq, Norm, LimitPair, IsSqrt;
    var t, l', r' := VisitShrinks(root, d, l, r);
  }

  /** When every pair is, the whole loop changes nothing. */
  lemma {:induction false} NothingLimited(root: real -> real, d: seq<real>, m: seq<real>, i: nat)
    requires IsSqrt(root) && |m| == |d| + 1 && i <= |d|
    requires forall j :: i <= j < |d| ==> InCircle(d[j], m[j], m[j + 1])
    ensures LimitFrom(root, d, m, i) == m
    decreases |d| - i
  {
    hide InCircle, LimitPair, IsSqrt;
    if i < |d| {
      InsideStays(root, d[i], m[i], m[i + 1]);
      assert m[i := m[i]][i + 1 := m[i + 1]] == m;
      NothingLimited(root, d, m, i + 1);
    }
  }

  /** A slope of nought stays so. */
  lemma {:induction false} LevelStays(root: real -> real, d: seq<real>, m: seq<real>, i: nat, k: nat)
    requires IsSqrt(root) && |m| == |d| + 1 && i <= |d| && k <= |d| && LoopInv(d, m, i) && m[k] == 0.0
    ensures LimitFrom(root, d, m, i)[k] == 0.0
    decreases |d| - i
  {
    hide LoopInv, LimitPair, IsSqrt;
    if i < |d| {
      LoopAgrees(d, m, i);
      var t, l, r := VisitShrinks(root, d[i], m[i], m[i + 1]);
      VisitKeepsInv(root, d, m, i);
      LevelStays(root, d, m[i := l][i + 1 := r], i + 1, k);
    }
  }

  lemma LoopAgrees(d: seq<real>, m: seq<real>, i: nat)
    requires |m| == |d| + 1 && i < |d| && LoopInv(d, m, i)
    ensures Agrees(d[i], m[i], m[i + 1])
  {}

  // ---- the path ---------------------------------------------------------------------------

  /** The control points on either side of an inner point, and the point itself, lie on
      one line of this slope. */
  predicate PassesAt(points: seq<Point>, path: seq<Segment>, k: nat, slope: real)
    requires |path| == |points| && 0 < k < |points| - 1
  {
    && path[k].Curve? && path[k + 1].Curve? && path[k].to == points[k]
    && path[k].c2.y - points[k].y == Mul(slope, path[k].c2.x - points[k].x)
    && path[k + 1].c1.y - points[k].y == Mul(slope, path[k + 1].c1.x - points[k].x)
  }

  lemma PassesWithSlope(points: seq<Point>, m: seq<real>, k: nat)
    requires |m| == |points| && 0 < k < |points| - 1
    ensures PassesAt(points, PathOf(points, m), k, m[k])
  {
    hide Mul;
    CurveControls(points[k - 1], points[k], m[k - 1], m[k]);
    CurveControls(points[k], points[k + 1], m[k], m[k + 1]);
    var h := (points[k].x - points[k - 1].x) / 3.0;
    MulNegates(m[k], h);
  }

  lemma MulNegates(m: real, h: real)
    ensures Mul(m, -h) == -Mul(m, h)
  {}

  /** At every turn of the data the curve is level, however far it was limited. */
  lemma LevelAtTurns(root: real -> real, points: seq<Point>, k: nat)
    requires IsSqrt(root) && Rightward(points) && 0 < k < |points| - 1 && !GoesOn(points, k)
    ensures PassesAt(points, PathOf(points, Limited(root, points)), k, 0.0)
  {
    hide Secants, StartSlopes, LimitFrom, PassesAt, GoesOn, Rightward, LoopInv, IsSqrt;
    var d := Secants(points);
    StartIsLevel(points, k);
    StartsWithInv(d);
    LevelStays(root, d, StartSlopes(d), 0, k);
    PassesWithSlope(points, Limited(root, points), k);
  }

  /** The slope a parabola's data has at a point: the parabola's own, and at the two ends
      that of the step there. */
  function DataSlope(points: seq<Point>, b: real, c: real, k: nat): real
    requires |points| >= 2 && k < |points|
  {
    if k == 0 then Secant(points[0], points[1])
    else if k == |points| - 1 then Secant(points[k - 1], points[k])
    else Tangent(b, c, points[k].x)
  }

  /** No step is so gentle beside its neighbours that its slopes leave its circle. */
  predicate Steady(points: seq<Point>, b: real, c: real)
    requires |points| >= 2
  {
    forall i :: 0 <= i < |points| - 1 ==>
      InCircle(Secant(points[i], points[i + 1]), DataSlope(points, b, c, i), DataSlope(points, b, c, i + 1))
  }

  lemma StartIsDataSlope(points: seq<Point>, a: real, b: real, c: real, h: real, k: nat)
    requires |points| >= 2 && OnParabola(points, a, b, c) && Even(points, h) && k < |points|
    requires forall i :: 0 < i < |points| - 1 ==> GoesOn(points, i)
    ensures StartSlopes(Secants(points))[k] == DataSlope(points, b, c, k)
  {
    hide OnParabola, Even, GoesOn, Tangent, Secant, Between, StartSlopes;
    if 0 < k < |points| - 1 {
      StartIsTangent(points, a, b, c, h, k);
    } else {
      StartEnds(Secants(points));
    }
  }

  /** Drawn through evenly spaced data on a parabola that goes on rising or falling
      steadily, the path is tangent to the parabola at every inner point. */
  lemma PathIsTangent(root: real -> real, points: seq<Point>, a: real, b: real, c: real, h: real, k: nat)
    requires IsSqrt(root) && OnParabola(points, a, b, c) && Even(points, h) && 0 < k < |points| - 1
    requires (forall i :: 0 < i < |points| - 1 ==> GoesOn(points, i)) && Steady(points, b, c)
    ensures PassesAt(points, PathOf(points, Limited(root, points)), k, Tangent(b, c, points[k].x))
  {
    hide *;
    var d := Secants(points);
    var m := StartSlopes(d);
    forall j | 0 <= j < |points|
      ensures m[j] == DataSlope(points, b, c, j)
    {
      StartIsDataSlope(points, a, b, c, h, j);
    }
    SteadyCircles(points, b, c, m);
    NothingLimited(root, d, m, 0);
    LimitedIsLoop(root, points);
    PassesWithSlope(points, m, k);
    DataSlopeInside(points, b, c, k);
  }

  lemma SteadyCircles(points: seq<Point>, b: real, c: real, m: seq<real>)
    requires |m| == |points| >= 2 && Steady(points, b, c)
    requires forall j :: 0 <= j < |points| ==> m[j] == DataSlope(points, b, c, j)
    ensures forall i :: 0 <= i < |points| - 1 ==> InCircle(Secants(points)[i], m[i], m[i + 1])
  {
    hide InCircle, DataSlope, Secant;
  }

  lemma DataSlopeInside(points: seq<Point>, b: real, c: real, k: nat)
    requires 0 < k < |points| - 1
    ensures DataSlope(points, b, c, k) == Tangent(b, c, points[k].x)
  {}

  predicate OnLine(points: seq<Point>, a: real, b: real) {
    forall i :: 0 <= i < |points| ==> points[i].y == a + Mul(b, points[i].x)
  }

  /** Data on a line is drawn as that line, however it is spaced. */
  lemma LineIsDrawn(root: real -> real, points: seq<Point>, a: real, b: real, i: nat)
    requires IsSqrt(root) && OnLine(points, a, b) && Rightward(points) && i < |points| - 1
    ensures var s := PathOf(points, Limited(root, points))[i + 1];
            && s.Curve? && s.to == points[i + 1]
            && s.c1.y == a + Mul(b, s.c1.x) && s.c2.y == a + Mul(b, s.c2.x)
  {
    hide *;
    var d := Secants(points);
    var m := StartSlopes(d);
    LineSlopes(points, a, b);
    LineInCircle(b);
    NothingLimited(root, d, m, 0);
    LimitedIsLoop(root, points);
    OnLineAt(points, a, b, i);
    OnLineAt(points, a, b, i + 1);
    SegmentOf(points, m, i);
    LineControls(points[i], points[i + 1], a, b);
  }

  lemma SegmentOf(points: seq<Point>, m: seq<real>, i: nat)
    requires |m| == |points| && i < |points| - 1
    ensures PathOf(points, m)[i + 1] == CurveTo(points[i], points[i + 1], m[i], m[i + 1])
  {}

  lemma LineControls(p: Point, q: Point, a: real, b: real)
    requires p.y == a + Mul(b, p.x) && q.y == a + Mul(b, q.x)
    ensures var s := CurveTo(p, q, b, b);
            s.Curve? && s.to == q && s.c1.y == a + Mul(b, s.c1.x) && s.c2.y == a + Mul(b, s.c2.x)
  {
    hide Mul;
    CurveControls(p, q, b, b);
    var h := (q.x - p.x) / 3.0;
    MulNegates(b, h);
    LineAt(b, p.x, h);
    LineAt(b, q.x, -h);
  }

  lemma OnLineAt(points: seq<Point>, a: real, b: real, i: nat)
    requires OnLine(points, a, b) && i < |points|
    ensures points[i].y == a + Mul(b, points[i].x)
  {}

  lemma LineAt(b: real, x: real, h: real)
    ensures Mul(b, x + h) == Mul(b, x) + Mul(b, h)
  {}

  lemma LineInCircle(b: real)
    ensures InCircle(b, b, b)
  {}

  lemma LineSlopes(points: seq<Point>, a: real, b: real)
    requires OnLine(points, a, b) && Rightward(points) && |points| >= 2
    ensures forall i :: 0 <= i < |points| - 1 ==> Secants(points)[i] == b
    ensures forall k :: 0 <= k < |points| ==> StartSlopes(Secants(points))[k] == b
  {
    hide Secant, Mul, Between;
    forall i | 0 <= i < |points| - 1
      ensures Secant(points[i], points[i + 1]) == b
    {
      var p, q := points[i], points[i + 1];
      SecantOfStep(p, q, q.x - p.x);
      LineAt(b, p.x, q.x - p.x);
      SameQuotient(Secant(p, q), b, q.x - p.x);
    }
    BetweenSame(b);
  }

  lemma BetweenSame(b: real)
    ensures Between(b, b) == b
  {
    assert Mul(b, b) > 0.0 || b == 0.0;
  }
}
