/** The monotone cubic path of `bench/fleet/charts.py`, over real numbers.

    `Monotone` is the source's loop, which overwrites a list of slopes in
    place. `Limited` is the same computation on values, and the theorems say
    what a reader of a chart is promised: after the whole loop, however later
    iterations rescaled a slope an earlier one had set, no curve segment
    leaves the band between its endpoints or turns back on itself. */
module Charts {
  import opened Reals


  /** A data point, already in drawing coordinates. */
  datatype Point = Point(x: real, y: real)

  /** One command of the SVG path: where it starts, or a cubic to a point by
      way of two control points. */
  datatype Segment =
    | Move(to: Point)
    | Curve(c1: Point, c2: Point, to: Point)

  /** `root` is a square root: what the source's `s ** 0.5` is over the reals. */
  ghost predicate IsSqrt(root: real -> real) {
    forall v: real :: v >= 0.0 ==> root(v) >= 0.0 && root(v) * root(v) == v
  }

  // ---- the secants and the slopes the loop starts from -------------------

  /** The width of a step, with the source's stand-in for a step of none. */
  function Width(a: Point, b: Point): (w: real)
    ensures w != 0.0
  {
    if b.x - a.x == 0.0 then 0.000000001 else b.x - a.x
  }

  function Secant(a: Point, b: Point): real {
    (b.y - a.y) / Width(a, b)
  }

  function Secants(points: seq<Point>): (d: seq<real>)
    requires |points| >= 2
    ensures |d| == |points| - 1
  {
    seq(|points| - 1, i requires 0 <= i < |points| - 1 => Secant(points[i], points[i + 1]))
  }

  function Between(before: real, after: real): real {
    if before * after <= 0.0 then 0.0 else (before + after) / 2.0
  }

  function StartSlopes(d: seq<real>): (m: seq<real>)
    requires |d| >= 1
    ensures |m| == |d| + 1
  {
    seq(|d| + 1, i requires 0 <= i <= |d| =>
      if i == 0 then d[0]
      else if i == |d| then d[|d| - 1]
      else Between(d[i - 1], d[i]))
  }

  // ---- the limiting loop ---------------------------------------------------

  /** The two slopes of one segment after the loop has visited it. */
  function LimitPair(root: real -> real, d: real, left: real, right: real): (real, real)
    requires IsSqrt(root)
  {
    if d == 0.0 then (0.0, 0.0)
    else
      var a, b := left / d, right / d;
      var s := Norm(a, b);
      if s > 9.0 then
        assert root(s) * root(s) == s;
        PulledTo(root(s), d, a, b)
      else (left, right)
  }

  function Norm(a: real, b: real): real {
    a * a + b * b
  }

  function PulledTo(q: real, d: real, a: real, b: real): (real, real)
    requires q != 0.0
  {
    var t := 3.0 / q;
    (t * a * d, t * b * d)
  }

  /** The slopes after the loop's iterations `i..`. */
  function LimitFrom(root: real -> real, d: seq<real>, m: seq<real>, i: nat): (r: seq<real>)
    requires IsSqrt(root) && |m| == |d| + 1 && i <= |d|
    ensures |r| == |m|
    decreases |d| - i
  {
    if i == |d| then m
    else
      var (l, r) := LimitPair(root, d[i], m[i], m[i + 1]);
      LimitFrom(root, d, m[i := l][i + 1 := r], i + 1)
  }

  function Limited(root: real -> real, points: seq<Point>): (m: seq<real>)
    requires IsSqrt(root) && |points| >= 2
    ensures |m| == |points|
  {
    LimitFrom(root, Secants(points), StartSlopes(Secants(points)), 0)
  }

  /** The cubic from `a` to `b` with slopes `l` and `r` at its ends. */
  function CurveTo(a: Point, b: Point, l: real, r: real): (s: Segment)
    ensures s.Curve? && s.to == b
  {
    var h := (b.x - a.x) / 3.0;
    Curve(Point(a.x + h, a.y + l * h), Point(b.x - h, b.y - r * h), b)
  }

  function PathOf(points: seq<Point>, m: seq<real>): (p: seq<Segment>)
    requires |points| == |m| >= 1
    ensures |p| == |points|
  {
    seq(|points|, i requires 0 <= i < |points| =>
      if i == 0 then Move(points[0]) else CurveTo(points[i - 1], points[i], m[i - 1], m[i]))
  }

  // ---- the invariant of the loop ---------------------------------------------

  /** A segment's slopes do not run against its secant. */
  predicate Agrees(d: real, l: real, r: real) {
    (d > 0.0 ==> l >= 0.0 && r >= 0.0) && (d < 0.0 ==> l <= 0.0 && r <= 0.0)
  }

  /** ... and lie in the circle of radius three times the secant. Where the
      secant is flat, both slopes are therefore flat. */
  predicate InCircle(d: real, l: real, r: real) {
    Agrees(d, l, r) && Sq(l) + Sq(r) <= 9.0 * Sq(d)
  }

  predicate LoopInv(d: seq<real>, m: seq<real>, i: nat)
    requires |m| == |d| + 1
  {
    forall j :: 0 <= j < |d| ==>
                  if j < i then InCircle(d[j], m[j], m[j + 1]) else Agrees(d[j], m[j], m[j + 1])
  }

  lemma SqOfProduct(x: real, t: real, v: real)
    requires x == t * v
    ensures Sq(x) == Mul(Sq(t), Sq(v))
  {
    assert x * x == (t * t) * (v * v);
  }

  /** Shrinking a slope by a factor in [0, 1] keeps its sign and does not
      grow its square. */
  lemma Shrunk(t: real, v: real, x: real)
    requires 0.0 <= t <= 1.0 && x == t * v
    ensures v >= 0.0 ==> x >= 0.0
    ensures v <= 0.0 ==> x <= 0.0
    ensures Sq(x) <= Sq(v)
  {
    assert x == Mul(t, v);
    SqOfProduct(x, t, v);
    MulBelow(t, 1.0, t);
    MulBelow(Sq(t), 1.0, Sq(v));
  }

  /** A pair of ratios scaled by `d`, against the circle of `d`. */
  lemma Scaled(a: real, b: real, d: real, l: real, r: real)
    requires l == a * d && r == b * d
    ensures Sq(l) + Sq(r) == Mul(Sq(a) + Sq(b), Sq(d))
  {
    SqOfProduct(l, a, d);
    SqOfProduct(r, b, d);
    MulAdds(Sq(a), Sq(b), Sq(d));
  }

  /** Three over the square root of more than nine is a factor below one. */
  lemma ThreeOver(s: real, q: real, t: real)
    requires s > 9.0 && q >= 0.0 && q * q == s && q != 0.0 && t == 3.0 / q
    ensures 0.0 <= t <= 1.0 && Mul(Sq(t), s) == 9.0
  {
    assert q <= 3.0 ==> q * q <= 3.0 * q;
    assert t * q == 3.0;
    SqOfProduct(3.0, t, q);
    assert Sq(q) == s && Sq(3.0) == 9.0;
  }

  /** What one visit does: each slope is multiplied by one factor in [0, 1], and the
      segment ends up in its circle -- left as it is when it was there, and else brought
      no further than onto it. */
  lemma VisitShrinks(root: real -> real, d: real, l: real, r: real)
      returns (t: real, l': real, r': real)
    requires IsSqrt(root) && Agrees(d, l, r)
    ensures 0.0 <= t <= 1.0 && l' == t * l && r' == t * r
    ensures LimitPair(root, d, l, r) == (l', r')
    ensures InCircle(d, l', r')
    ensures InCircle(d, l, r) ==> l' == l && r' == r
    ensures !InCircle(d, l, r) ==> Sq(l') + Sq(r') == 9.0 * Sq(d)
  {
    hide Agrees, InCircle, Sq, Mul, Norm, PulledTo;
    if d == 0.0 {
      t, l', r' := 0.0, 0.0, 0.0;
      FlatCircle(d, l, r);
    } else {
      var a, b := l / d, r / d;
      var s := Norm(a, b);
      if s > 9.0 {
        var q := root(s);
        assert q >= 0.0 && q * q == s;
        t := 3.0 / q;
        l', r' := PulledTo(q, d, a, b).0, PulledTo(q, d, a, b).1;
        PulledBack(s, q, t, a, b, d, l, r, l', r');
      } else {
        t, l', r' := 1.0, l, r;
        ShortPair(a, b, d, l, r);
      }
    }
  }

  lemma FlatCircle(d: real, l: real, r: real)
    ensures InCircle(d, 0.0, 0.0)
    ensures d == 0.0 ==> (InCircle(d, l, r) <==> l == 0.0 && r == 0.0) && Sq(0.0) + Sq(0.0) == 9.0 * Sq(d)
  {}

  lemma ShortPair(a: real, b: real, d: real, l: real, r: real)
    requires d != 0.0 && a == l / d && b == r / d && Norm(a, b) <= 9.0 && Agrees(d, l, r)
    ensures InCircle(d, l, r)
  {
    Scaled(a, b, d, l, r);
    MulBelow(Sq(a) + Sq(b), 9.0, Sq(d));
  }

  /** A pair longer than three is pulled back onto the circle. */
  lemma PulledBack(s: real, q: real, t: real, a: real, b: real, d: real,
                   l: real, r: real, l': real, r': real)
    requires d != 0.0 && a == l / d && b == r / d && s == Norm(a, b)
    requires s > 9.0 && q >= 0.0 && q * q == s && q != 0.0 && t == 3.0 / q
    requires (l', r') == PulledTo(q, d, a, b)
    requires Agrees(d, l, r)
    ensures 0.0 <= t <= 1.0 && l' == t * l && r' == t * r && InCircle(d, l', r')
    ensures Sq(l') + Sq(r') == 9.0 * Sq(d) && !InCircle(d, l, r)
  {
    hide Sq, Mul, Norm, PulledTo;
    ThreeOver(s, q, t);
    PulledScale(q, t, a, b, d, l, r, l', r');
    Shrunk(t, l, l');
    Shrunk(t, r, r');
    PulledSize(s, t, a, b, d, l, r, l', r');
  }

  lemma PulledScale(q: real, t: real, a: real, b: real, d: real, l: real, r: real, l': real, r': real)
    requires q != 0.0 && t == 3.0 / q && d != 0.0 && a == l / d && b == r / d && (l', r') == PulledTo(q, d, a, b)
    ensures l' == t * l && r' == t * r && a * d == l && b * d == r
  {
    assert a * d == l && b * d == r;
    assert t * a * d == t * (a * d) && t * b * d == t * (b * d);
  }

  lemma PulledSize(s: real, t: real, a: real, b: real, d: real, l: real, r: real, l': real, r': real)
    requires d != 0.0 && a * d == l && b * d == r && s == Norm(a, b) && s > 9.0 && Mul(Sq(t), s) == 9.0
    requires l' == t * l && r' == t * r
    ensures Sq(l') + Sq(r') == 9.0 * Sq(d) && Sq(l) + Sq(r) > 9.0 * Sq(d)
  {
    SqOfProduct(l', t, l);
    SqOfProduct(r', t, r);
    Scaled(a, b, d, l, r);
    NormIsSquares(a, b);
    hide Sq, Mul, Norm;
    Regroup(Sq(t), s, Sq(d), Sq(l) + Sq(r), Sq(l), Sq(r));
    TooLarge(s, Sq(d));
  }

  lemma NormIsSquares(a: real, b: real)
    ensures Sq(a) + Sq(b) == Norm(a, b)
  {}

  lemma TooLarge(s: real, dd: real)
    requires s > 9.0 && dd > 0.0
    ensures Mul(s, dd) > 9.0 * dd
  {
    assert Mul(s, dd) - 9.0 * dd == Mul(s - 9.0, dd);
  }

  lemma Regroup(tt: real, s: real, dd: real, e: real, ll: real, rr: real)
    requires e == Mul(s, dd) && Mul(tt, s) == 9.0 && e == ll + rr
    ensures Mul(tt, ll) + Mul(tt, rr) == 9.0 * dd
  {
    assert tt * (s * dd) == (tt * s) * dd;
    assert tt * (ll + rr) == tt * ll + tt * rr;
  }

  lemma CircleKeepsShrunkRight(d: real, l: real, r: real, t: real, r': real)
    requires InCircle(d, l, r) && 0.0 <= t <= 1.0 && r' == t * r
    ensures InCircle(d, l, r')
  {
    Shrunk(t, r, r');
  }

  lemma ShrunkAgrees(d: real, l: real, r: real, t: real, l': real)
    requires Agrees(d, l, r) && 0.0 <= t <= 1.0 && l' == t * l
    ensures Agrees(d, l', r)
  {
    Shrunk(t, l, l');
  }

  /** One iteration keeps every earlier segment in its circle, although it
      rescales the slope it shares with the segment before it. */
  lemma VisitKeepsInv(root: real -> real, d: seq<real>, m: seq<real>, i: nat)
    requires IsSqrt(root) && |m| == |d| + 1 && i < |d| && LoopInv(d, m, i)
    ensures var (l, r) := LimitPair(root, d[i], m[i], m[i + 1]);
            LoopInv(d, m[i := l][i + 1 := r], i + 1)
  {
    hide Agrees, InCircle, LimitPair, Sq, Mul;
    var t, l, r := VisitShrinks(root, d[i], m[i], m[i + 1]);
    var m' := m[i := l][i + 1 := r];
    forall j | 0 <= j < |d|
      ensures if j < i + 1 then InCircle(d[j], m'[j], m'[j + 1]) else Agrees(d[j], m'[j], m'[j + 1])
    {
      if j + 1 == i {
        CircleKeepsShrunkRight(d[j], m[j], m[j + 1], t, l);
      } else if j == i + 1 {
        ShrunkAgrees(d[j], m[j], m[j + 1], t, r);
      }
    }
  }

  lemma {:induction false} LoopKeepsInv(root: real -> real, d: seq<real>, m: seq<real>, i: nat)
    requires IsSqrt(root) && |m| == |d| + 1 && i <= |d| && LoopInv(d, m, i)
    ensures LoopInv(d, LimitFrom(root, d, m, i), |d|)
    decreases |d| - i
  {
    hide Agrees, InCircle, LimitPair, Sq, Mul;
    if i < |d| {
      VisitKeepsInv(root, d, m, i);
      var (l, r) := LimitPair(root, d[i], m[i], m[i + 1]);
      LoopKeepsInv(root, d, m[i := l][i + 1 := r], i + 1);
    }
  }

  lemma BetweenAgrees(before: real, after: real)
    ensures var v := Between(before, after);
            Agrees(before, v, v) && Agrees(after, v, v)
  {
    if before * after > 0.0 {
      assert Mul(before, after) > 0.0;
    }
  }

  /** A starting slope runs with the secants on either side of it. */
  lemma SlopeAgrees(d: seq<real>, k: nat)
    requires k <= |d| && |d| >= 1
    ensures k > 0 ==> Agrees(d[k - 1], StartSlopes(d)[k], StartSlopes(d)[k])
    ensures k < |d| ==> Agrees(d[k], StartSlopes(d)[k], StartSlopes(d)[k])
  {
    hide Between;
    if 0 < k < |d| { BetweenAgrees(d[k - 1], d[k]); }
  }

  lemma StartsWithInv(d: seq<real>)
    requires |d| >= 1
    ensures LoopInv(d, StartSlopes(d), 0)
  {
    hide StartSlopes;
    var m := StartSlopes(d);
    forall j | 0 <= j < |d| ensures Agrees(d[j], m[j], m[j + 1]) {
      SlopeAgrees(d, j);
      SlopeAgrees(d, j + 1);
    }
  }

  // ---- what the loop promises --------------------------------------------------

  lemma LimitedInCircles(root: real -> real, points: seq<Point>, i: nat)
    requires IsSqrt(root) && |points| >= 2 && i < |points| - 1
    ensures InCircle(Secants(points)[i], Limited(root, points)[i], Limited(root, points)[i + 1])
  {
    hide Agrees, InCircle, LimitPair, LimitFrom, Secants, StartSlopes;
    var d := Secants(points);
    StartsWithInv(d);
    LoopKeepsInv(root, d, StartSlopes(d), 0);
  }

  /** After the whole loop every segment has slope ratios that are not
      negative and lie in the circle of radius three, or, where the data is
      flat, both slopes nought. For every point list: widths may be nought
      or negative, and the order of the x values does not matter. */
  lemma LimitedSlopes(root: real -> real, points: seq<Point>, i: nat)
    requires IsSqrt(root) && |points| >= 2 && i < |points| - 1
    ensures var d, m := Secants(points), Limited(root, points);
            if d[i] == 0.0 then m[i] == 0.0 && m[i + 1] == 0.0
            else
              var a, b := m[i] / d[i], m[i + 1] / d[i];
              a >= 0.0 && b >= 0.0 && Sq(a) + Sq(b) <= 9.0
  {
    hide *;
    var d, m := Secants(points), Limited(root, points);
    LimitedInCircles(root, points, i);
    RatiosInCircle(d[i], m[i], m[i + 1]);
  }

  lemma RatiosInCircle(d: real, l: real, r: real)
    requires InCircle(d, l, r)
    ensures d == 0.0 ==> l == 0.0 && r == 0.0
    ensures d != 0.0 ==> l / d >= 0.0 && r / d >= 0.0 && Sq(l / d) + Sq(r / d) <= 9.0
  {
    if d != 0.0 {
      RatioSign(l / d, d, l);
      RatioSign(r / d, d, r);
      RatioSize(l / d, r / d, d, l, r);
    }
  }

  lemma RatioSign(a: real, d: real, l: real)
    requires l == a * d && ((d > 0.0 && l >= 0.0) || (d < 0.0 && l <= 0.0))
    ensures a >= 0.0
  {
    assert l == Mul(a, d);
    assert a < 0.0 ==> a * d != 0.0;
  }

  lemma RatioSize(a: real, b: real, d: real, l: real, r: real)
    requires d != 0.0 && l == a * d && r == b * d && Sq(l) + Sq(r) <= 9.0 * Sq(d)
    ensures Sq(a) + Sq(b) <= 9.0
  {
    Scaled(a, b, d, l, r);
    Cancel(Sq(a) + Sq(b), Sq(d));
  }

  lemma Cancel(s: real, dd: real)
    requires dd > 0.0 && Mul(s, dd) <= 9.0 * dd
    ensures s <= 9.0
  {
    assert Mul(s, dd) - 9.0 * dd == Mul(s - 9.0, dd);
  }

  // ---- the curve those slopes draw ----------------------------------------------

  /** A cubic Bezier coordinate at parameter `u`. */
  function Bezier(p0: real, p1: real, p2: real, p3: real, u: real): real {
    var w := 1.0 - u;
    w * w * w * p0 + 3.0 * w * w * u * p1 + 3.0 * w * u * u * p2 + u * u * u * p3
  }

  /** The y coordinate of the segment from `a`, and its x coordinate. */
  function CurveY(a: Point, s: Segment, u: real): real
    requires s.Curve?
  {
    Bezier(a.y, s.c1.y, s.c2.y, s.to.y, u)
  }

  function CurveX(a: Point, s: Segment, u: real): real
    requires s.Curve?
  {
    Bezier(a.x, s.c1.x, s.c2.x, s.to.x, u)
  }

  /** A third of the derivative, per unit of rise, of a segment whose slope
      ratios are `a` and `b`. */
  function Rate(a: real, b: real, u: real): real {
    (1.0 - u) * (1.0 - u) * a + 2.0 * u * (1.0 - u) * (3.0 - a - b) + u * u * b
  }

  /** In the circle, whatever the ratios exceed three by is no more than
      their geometric mean. */
  lemma ExcessBound(a: real, b: real, c: real)
    requires a >= 0.0 && b >= 0.0 && Sq(a) + Sq(b) <= 9.0 && c == a + b - 3.0 && c > 0.0
    ensures Sq(c) <= Mul(a, b)
  {
    SumBelowNine(a, b, c);
    ExcessSquares(a, b, c);
    assert Mul(c, 6.0 - c) >= 0.0;
  }

  lemma ExcessSquares(a: real, b: real, c: real)
    requires c == a + b - 3.0
    ensures 2.0 * Mul(a, b) - 2.0 * Sq(c) == Mul(c, 6.0 - c) + 9.0 - (Sq(a) + Sq(b))
  {}

  lemma SumBelowNine(a: real, b: real, c: real)
    requires a >= 0.0 && b >= 0.0 && Sq(a) + Sq(b) <= 9.0 && c == a + b - 3.0
    ensures c <= 6.0
  {
    assert Sq(a - b) + Sq(a + b) == 2.0 * (Sq(a) + Sq(b));
    assert Sq(a + b) <= 18.0;
    TooLong(a + b);
  }

  lemma TooLong(s: real)
    requires Sq(s) <= 18.0
    ensures s <= 9.0
  {
    assert s > 9.0 ==> s * s > 9.0 * s;
  }

  /** Twice a product is at most the sum of squares, and squares order as
      their roots do. */
  lemma MeanBound(p: real, r: real, f: real)
    requires p >= 0.0 && r >= 0.0 && Sq(f) <= 4.0 * Mul(p, r)
    ensures f <= p + r
  {
    assert Sq(p + r) == Sq(p - r) + 4.0 * Mul(p, r);
    RootOrder(f, p + r);
  }

  lemma RootOrder(f: real, e: real)
    requires e >= 0.0 && Sq(f) <= Sq(e)
    ensures f <= e
  {
    assert Sq(f) - Sq(e) == Mul(f - e, f + e);
  }

  /** Inside the circle the rate is never negative. */
  lemma RateNotNegative(a: real, b: real, u: real)
    requires a >= 0.0 && b >= 0.0 && Sq(a) + Sq(b) <= 9.0 && 0.0 <= u <= 1.0
    ensures Rate(a, b, u) >= 0.0
  {
    hide Rate, Sq, Mul;
    var w, c := 1.0 - u, a + b - 3.0;
    var p, q, r := Mul(Sq(w), a), Mul(u, w), Mul(Sq(u), b);
    RateForm(a, b, u, w, c, p, q, r);
    if c > 0.0 {
      RateSquares(a, b, u, w, c, p, q, r);
      ExcessBound(a, b, c);
      MulBelow(Sq(c), Mul(a, b), Sq(q));
      MeanBound(p, r, 2.0 * Mul(c, q));
    }
  }

  lemma RateForm(a: real, b: real, u: real, w: real, c: real, p: real, q: real, r: real)
    requires w == 1.0 - u && c == a + b - 3.0
    requires p == Mul(Sq(w), a) && q == Mul(u, w) && r == Mul(Sq(u), b)
    ensures Rate(a, b, u) == p - 2.0 * Mul(c, q) + r
  {}

  lemma RateSquares(a: real, b: real, u: real, w: real, c: real, p: real, q: real, r: real)
    requires p == Mul(Sq(w), a) && q == Mul(u, w) && r == Mul(Sq(u), b)
    ensures Mul(p, r) == Mul(Mul(a, b), Sq(q))
    ensures Sq(2.0 * Mul(c, q)) == 4.0 * Mul(Sq(c), Sq(q))
  {}

  function Cubic(c1: real, c2: real, c3: real, u: real): real {
    c1 * u + c2 * (u * u) + c3 * (u * u * u)
  }

  /** The part of its rise a segment has made at `u`. */
  function Progress(a: real, b: real, u: real): real {
    Cubic(a, 3.0 - 2.0 * a - b, a + b - 2.0, u)
  }

  /** Six times the mean slope of a cubic between two parameters. */
  function Slope6(c1: real, c2: real, c3: real, u: real, v: real): real {
    6.0 * (c1 + c2 * (u + v) + c3 * (u * u + u * v + v * v))
  }

  /** The y coordinate in terms of the rise and the ratios. */
  lemma RiseForm(y0: real, rise: real, a: real, b: real, u: real)
    ensures Bezier(y0, y0 + Mul(a, rise) / 3.0, y0 + rise - Mul(b, rise) / 3.0, y0 + rise, u)
         == y0 + Mul(rise, Progress(a, b, u))
  {
    var w, p, q := 1.0 - u, a * rise / 3.0, b * rise / 3.0;
    assert Bezier(y0, y0 + p, y0 + rise - q, y0 + rise, u)
        == (w * w * w + 3.0 * w * w * u + 3.0 * w * u * u + u * u * u) * y0
           + 3.0 * w * w * u * p + 3.0 * w * u * u * (rise - q) + u * u * u * rise;
    assert w * w * w + 3.0 * w * w * u + 3.0 * w * u * u + u * u * u == 1.0;
  }

  /** Simpson's rule is exact for a cubic: the progress between two
      parameters is the mean of the rates at the ends and the middle. */
  lemma ProgressBetween(a: real, b: real, u: real, v: real)
    ensures Progress(a, b, v) - Progress(a, b, u)
         == Mul(v - u, Rate(a, b, u) + 4.0 * Rate(a, b, (u + v) / 2.0) + Rate(a, b, v)) / 6.0
  {
    hide Rate, Cubic, Slope6, Mul;
    var c2, c3 := 3.0 - 2.0 * a - b, a + b - 2.0;
    RateSum(a, b, u, v, c2, c3);
    CubicBetween(a, c2, c3, u, v);
  }

  lemma RateSum(a: real, b: real, u: real, v: real, c2: real, c3: real)
    requires c2 == 3.0 - 2.0 * a - b && c3 == a + b - 2.0
    ensures Rate(a, b, u) + 4.0 * Rate(a, b, (u + v) / 2.0) + Rate(a, b, v) == Slope6(a, c2, c3, u, v)
  {
    var m := (u + v) / 2.0;
    RateExpanded(a, b, u, c2, c3);
    RateExpanded(a, b, v, c2, c3);
    RateExpanded(a, b, m, c2, c3);
    assert 4.0 * (m * m) == u * u + 2.0 * (u * v) + v * v;
    assert c3 * (u * u + 4.0 * (m * m) + v * v) == 2.0 * (c3 * (u * u + u * v + v * v));
    assert c2 * u + 4.0 * (c2 * m) + c2 * v == 3.0 * (c2 * (u + v));
  }

  lemma CubicBetween(c1: real, c2: real, c3: real, u: real, v: real)
    ensures Cubic(c1, c2, c3, v) - Cubic(c1, c2, c3, u) == Mul(v - u, Slope6(c1, c2, c3, u, v)) / 6.0
  {}

  lemma RateExpanded(a: real, b: real, u: real, c2: real, c3: real)
    requires c2 == 3.0 - 2.0 * a - b && c3 == a + b - 2.0
    ensures Rate(a, b, u) == a + 2.0 * (c2 * u) + 3.0 * (c3 * (u * u))
  {}

  /** Inside the circle a segment only ever moves towards its far end. */
  lemma ProgressRises(a: real, b: real, u: real, v: real)
    requires a >= 0.0 && b >= 0.0 && Sq(a) + Sq(b) <= 9.0 && 0.0 <= u <= v <= 1.0
    ensures Progress(a, b, u) <= Progress(a, b, v)
  {
    hide Progress, Rate, Sq, Mul;
    ProgressBetween(a, b, u, v);
    RateNotNegative(a, b, u);
    RateNotNegative(a, b, (u + v) / 2.0);
    RateNotNegative(a, b, v);
  }

  /** The control points the path draws, as ratios of the segment's own rise.
      A step of no width and a flat one are both ratios of nought. */
  lemma ControlRatios(p: Point, q: Point, l: real, r: real) returns (a: real, b: real)
    requires InCircle(Secant(p, q), l, r)
    ensures a >= 0.0 && b >= 0.0 && Sq(a) + Sq(b) <= 9.0
    ensures var s := CurveTo(p, q, l, r);
            var rise := q.y - p.y;
            s.c1.y == p.y + Mul(a, rise) / 3.0 && s.c2.y == p.y + rise - Mul(b, rise) / 3.0
  {
    hide InCircle, CurveTo, Secant, Mul, Sq;
    var d, dx, rise := Secant(p, q), q.x - p.x, q.y - p.y;
    CurveControls(p, q, l, r);
    RatiosInCircle(d, l, r);
    if dx == 0.0 || d == 0.0 {
      a, b := 0.0, 0.0;
    } else {
      a, b := l / d, r / d;
      SecantRise(p, q);
      OffsetIsRatio(l, d, a, dx, rise);
      OffsetIsRatio(r, d, b, dx, rise);
    }
  }

  lemma CurveControls(p: Point, q: Point, l: real, r: real)
    ensures var h := (q.x - p.x) / 3.0;
            CurveTo(p, q, l, r) == Curve(Point(p.x + h, p.y + Mul(l, h)), Point(q.x - h, q.y - Mul(r, h)), q)
  {}

  lemma SecantRise(p: Point, q: Point)
    requires q.x != p.x
    ensures Mul(Secant(p, q), q.x - p.x) == q.y - p.y
  {}

  lemma OffsetIsRatio(l: real, d: real, a: real, dx: real, rise: real)
    requires d != 0.0 && a == l / d && Mul(d, dx) == rise
    ensures Mul(l, dx / 3.0) == Mul(a, rise) / 3.0
  {
    assert a * (d * dx) == (a * d) * dx;
  }

  /** The drawn curve never turns back: between two data points it is
      monotone in its parameter, and so stays between their values. */
  lemma SegmentMonotone(root: real -> real, points: seq<Point>, i: nat, u: real, v: real)
    requires IsSqrt(root) && |points| >= 2 && i < |points| - 1 && 0.0 <= u <= v <= 1.0
    ensures var p, q, s := points[i], points[i + 1], PathOf(points, Limited(root, points))[i + 1];
            s.Curve? && s.to == q
            && (p.y <= q.y ==> p.y <= CurveY(p, s, u) <= CurveY(p, s, v) <= q.y)
            && (p.y >= q.y ==> p.y >= CurveY(p, s, u) >= CurveY(p, s, v) >= q.y)
  {
    hide InCircle, Limited, Bezier, Progress, Sq;
    var p, q, m := points[i], points[i + 1], Limited(root, points);
    LimitedInCircles(root, points, i);
    assert Secants(points)[i] == Secant(p, q);
    var s := CurveTo(p, q, m[i], m[i + 1]);
    assert PathOf(points, m)[i + 1] == s;
    var a, b := ControlRatios(p, q, m[i], m[i + 1]);
    var rise := q.y - p.y;
    RiseForm(p.y, rise, a, b, u);
    RiseForm(p.y, rise, a, b, v);
    ProgressRises(a, b, 0.0, u);
    ProgressRises(a, b, u, v);
    ProgressRises(a, b, v, 1.0);
    ProgressEnds(a, b);
    RiseOrder(rise, Progress(a, b, u), Progress(a, b, v));
  }

  lemma ProgressEnds(a: real, b: real)
    ensures Progress(a, b, 0.0) == 0.0 && Progress(a, b, 1.0) == 1.0
  {}

  lemma RiseOrder(rise: real, f: real, g: real)
    requires 0.0 <= f <= g <= 1.0
    ensures rise >= 0.0 ==> 0.0 <= Mul(rise, f) <= Mul(rise, g) <= rise
    ensures rise <= 0.0 ==> 0.0 >= Mul(rise, f) >= Mul(rise, g) >= rise
  {
    assert Mul(rise, g) - Mul(rise, f) == Mul(rise, g - f);
    assert rise - Mul(rise, g) == Mul(rise, 1.0 - g);
  }

  /** Along x the curve keeps an even pace, so with x values that do not
      decrease it is the graph of a function. */
  lemma CurveEven(p: Point, q: Point, l: real, r: real, u: real)
    ensures CurveX(p, CurveTo(p, q, l, r), u) == p.x + Mul(u, q.x - p.x)
  {
    hide Bezier, Mul;
    EvenPace(p.x, q.x - p.x, u);
  }

  lemma EvenPace(x0: real, dx: real, u: real)
    ensures Bezier(x0, x0 + dx / 3.0, x0 + dx - dx / 3.0, x0 + dx, u) == x0 + Mul(u, dx)
  {
    var w := 1.0 - u;
    assert w * w * w + 3.0 * w * w * u + 3.0 * w * u * u + u * u * u == 1.0;
    assert 3.0 * w * w * u * (dx / 3.0) + 3.0 * w * u * u * (dx - dx / 3.0) + u * u * u * dx == u * dx;
    assert Bezier(x0, x0 + dx / 3.0, x0 + dx - dx / 3.0, x0 + dx, u)
        == (w * w * w + 3.0 * w * w * u + 3.0 * w * u * u + u * u * u) * x0
           + 3.0 * w * w * u * (dx / 3.0) + 3.0 * w * u * u * (dx - dx / 3.0) + u * u * u * dx;
  }

  // ---- the source's loops -----------------------------------------------------------

  lemma LimitStep(root: real -> real, d: seq<real>, m: seq<real>, i: nat, l: real, r: real)
    requires IsSqrt(root) && |m| == |d| + 1 && i < |d| && (l, r) == LimitPair(root, d[i], m[i], m[i + 1])
    ensures LimitFrom(root, d, m[i := l][i + 1 := r], i + 1) == LimitFrom(root, d, m, i)
  {
    hide LimitPair, IsSqrt;
  }

  /** The loop that limits the slopes `m`, overwriting them in place. */
  method Limit(m: array<real>, d: seq<real>, root: real -> real)
    requires IsSqrt(root) && m.Length == |d| + 1
    modifies m
    ensures m[..] == LimitFrom(root, d, old(m[..]), 0)
  {
    hide LimitFrom, LimitPair, Norm;
    var i := 0;
    while i < |d|
      invariant 0 <= i <= |d|
      invariant LimitFrom(root, d, m[..], i) == LimitFrom(root, d, old(m[..]), 0)
    {
      ghost var before := m[..];
      var l, r := Visit(d[i], m[i], m[i + 1], root);
      m[i], m[i + 1] := l, r;
      assert m[..] == before[i := l][i + 1 := r];
      LimitStep(root, d, before, i, l, r);
      i := i + 1;
    }
    LimitDone(root, d, m[..]);
  }

  lemma LimitDone(root: real -> real, d: seq<real>, m: seq<real>)
    requires IsSqrt(root) && |m| == |d| + 1
    ensures LimitFrom(root, d, m, |d|) == m
  {}

  /** One turn of that loop: what the segment's two slopes become. */
  method Visit(d: real, left: real, right: real, root: real -> real) returns (l: real, r: real)
    requires IsSqrt(root)
    ensures (l, r) == LimitPair(root, d, left, right)
  {
    hide Norm, PulledTo;
    if d == 0.0 {
      return 0.0, 0.0;
    }
    var a, b := left / d, right / d;
    var s := Norm(a, b);
    if s > 9.0 {
      assert root(s) * root(s) == s;
      var pulled := PulledTo(root(s), d, a, b);
      return pulled.0, pulled.1;
    }
    return left, right;
  }

  /** The loop that writes the path out, one cubic a segment. */
  method Draw(points: seq<Point>, m: array<real>) returns (path: seq<Segment>)
    requires |points| == m.Length >= 1
    ensures path == PathOf(points, m[..])
  {
    hide CurveTo;
    path := [Move(points[0])];
    var i := 0;
    while i < |points| - 1
      invariant 0 <= i < |points|
      invariant path == PathOf(points, m[..])[..i + 1]
    {
      path := path + [CurveTo(points[i], points[i + 1], m[i], m[i + 1])];
      i := i + 1;
    }
  }

  /** The path through `points`. The source indexes the first secant, so it
      needs two of them. */
  method Monotone(points: seq<Point>, root: real -> real) returns (path: seq<Segment>)
    requires IsSqrt(root) && |points| >= 2
    ensures path == PathOf(points, Limited(root, points))
  {
    hide *;
    var d := Secants(points);
    var start := StartSlopes(d);
    var m := new real[|start|];
    forall i | 0 <= i < m.Length { m[i] := start[i]; }
    assert m[..] == start;
    Limit(m, d, root);
    assert m[..] == Limited(root, points) by { LimitedIsLoop(root, points); }
    path := Draw(points, m);
  }

  lemma LimitedIsLoop(root: real -> real, points: seq<Point>)
    requires IsSqrt(root) && |points| >= 2
    ensures Limited(root, points) == LimitFrom(root, Secants(points), StartSlopes(Secants(points)), 0)
  {}
}
