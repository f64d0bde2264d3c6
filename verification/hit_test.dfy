/** Hit-testing of segments and triangles in the plane, over the real numbers. */
module HitTest {
  datatype Point = Point(x: real, y: real) {
    function Plus(v: Point): Point { Point(x + v.x, y + v.y) }
    function Minus(v: Point): Point { Point(x - v.x, y - v.y) }
  }

  const ORIGIN := Point(0.0, 0.0)

  function Dot(u: Point, v: Point): real { u.x * v.x + u.y * v.y }

  function Cross(u: Point, v: Point): real { u.x * v.y - u.y * v.x }

  /** The square of the distance. */
  function Dist2(p: Point, q: Point): real { Dot(p.Minus(q), p.Minus(q)) }

  // ---- Segments ----

  /** The point that divides the segment from a to b at t. */
  function Along(a: Point, b: Point, t: real): Point {
    Point(a.x + t * (b.x - a.x), a.y + t * (b.y - a.y))
  }

  /** The parameter of p's projection on the line through a and b, clamped to the segment. */
  function ClampedParameter(p: Point, a: Point, b: Point): real {
    var d := b.Minus(a);
    Clamped(Dot(p.Minus(a), d), Dot(d, d))
  }

  function Clamped(advance: real, len2: real): (t: real)
    ensures 0.0 <= t <= 1.0
  {
    var t := if len2 == 0.0 then 0.0 else advance / len2;
    if t < 0.0 then 0.0 else if t > 1.0 then 1.0 else t
  }

  /** The square of the distance the editor computes from p to the segment. */
  function SegmentDist2(p: Point, a: Point, b: Point): real {
    Dist2(p, Along(a, b, ClampedParameter(p, a, b)))
  }

  lemma ProductIsNonNegative(x: real, y: real)
    requires x >= 0.0 && y >= 0.0
    ensures x * y >= 0.0 && (x > 0.0 && y > 0.0 ==> x * y > 0.0)
  {
    if x > 0.0 && y > 0.0 {
      assert x * y > 0.0;
    }
  }

  lemma PositiveProduct(x: real, y: real) returns (product: real)
    requires x > 0.0 && y > 0.0
    ensures product == x * y && product > 0.0
  {
    product := x * y;
  }

  lemma SquareIsNonNegative(x: real) returns (x2: real)
    ensures x2 == x * x && x2 >= 0.0 && (x == 0.0 || x2 > 0.0)
  {
    if x > 0.0 {
      x2 := PositiveProduct(x, x);
    } else if x < 0.0 {
      x2 := PositiveProduct(-x, -x);
    } else {
      x2 := 0.0;
    }
  }

  lemma DotWithItself(v: Point)
    ensures Dot(v, v) >= 0.0 && (v == ORIGIN || Dot(v, v) > 0.0)
  {
    var x2 := SquareIsNonNegative(v.x);
    var y2 := SquareIsNonNegative(v.y);
    assert Dot(v, v) == x2 + y2;
  }

  lemma DotWithOrigin(w: Point)
    ensures Dot(w, ORIGIN) == 0.0
  {
  }

  /** Along a segment, the squared distance is a parabola in the parameter. */
  lemma DistanceIsParabola(p: Point, a: Point, b: Point, t: real)
    ensures var w, d := p.Minus(a), b.Minus(a);
            Dist2(p, Along(a, b, t)) == Dot(w, w) - 2.0 * t * Dot(w, d) + t * t * Dot(d, d)
  {
    var w, d := p.Minus(a), b.Minus(a);
    var q := p.Minus(Along(a, b, t));
    assert q.x == w.x - t * d.x && q.y == w.y - t * d.y;
    assert q.x * q.x == w.x * w.x - 2.0 * t * (w.x * d.x) + t * t * (d.x * d.x);
    assert q.y * q.y == w.y * w.y - 2.0 * t * (w.y * d.y) + t * t * (d.y * d.y);
  }

  /** The clamped vertex of a parabola with slope -2m at 0 and curvature len2 is its least point on [0, 1]. */
  lemma ClampedVertexIsLeast(n: real, m: real, len2: real, t: real)
    requires len2 >= 0.0 && (len2 == 0.0 ==> m == 0.0) && 0.0 <= t <= 1.0
    ensures var s := Clamped(m, len2);
            n - 2.0 * t * m + t * t * len2 >= n - 2.0 * s * m + s * s * len2 + (t - s) * (t - s) * len2
  {
    var v, s := if len2 == 0.0 then 0.0 else m / len2, Clamped(m, len2);
    assert m == v * len2;
    var gap := (t - s) * (s - v);
    assert gap >= 0.0 by {
      if s < v {
        ProductIsNonNegative(s - t, v - s);
        assert gap == (s - t) * (v - s);
      } else if s > v {
        ProductIsNonNegative(t - s, s - v);
      }
    }
    ProductIsNonNegative(gap, len2);
    assert (n - 2.0 * t * m + t * t * len2) - (n - 2.0 * s * m + s * s * len2 + (t - s) * (t - s) * len2)
        == 2.0 * (gap * len2);
  }

  /** On a segment of no length nothing advances. */
  lemma NoLengthNoAdvance(w: Point, d: Point)
    ensures Dot(d, d) >= 0.0 && (Dot(d, d) == 0.0 ==> Dot(w, d) == 0.0)
  {
    DotWithItself(d);
    DotWithOrigin(w);
  }

  /**
   The clamped projection is the nearest point of the segment, and the only one:
   the point at any other parameter is further away by at least its squared distance from the projection.
   */
  lemma ProjectionIsNearest(p: Point, a: Point, b: Point, t: real)
    requires 0.0 <= t <= 1.0
    ensures var s := ClampedParameter(p, a, b);
            && 0.0 <= s <= 1.0
            && Dist2(p, Along(a, b, t)) >= SegmentDist2(p, a, b) + (t - s) * (t - s) * Dist2(b, a)
  {
    var w, d := p.Minus(a), b.Minus(a);
    var s := ClampedParameter(p, a, b);
    NoLengthNoAdvance(w, d);
    DistanceIsParabola(p, a, b, s);
    DistanceIsParabola(p, a, b, t);
    ClampedVertexIsLeast(Dot(w, w), Dot(w, d), Dot(d, d), t);
  }

  lemma NothingIsNearer(p: Point, a: Point, b: Point, t: real)
    requires 0.0 <= t <= 1.0
    ensures Dist2(p, Along(a, b, t)) >= SegmentDist2(p, a, b)
  {
    ProjectionIsNearest(p, a, b, t);
    SurplusIsNonNegative(t - ClampedParameter(p, a, b), b.Minus(a));
  }

  lemma SurplusIsNonNegative(k: real, d: Point)
    ensures k * k * Dot(d, d) >= 0.0
  {
    var k2 := SquareIsNonNegative(k);
    DotWithItself(d);
    ProductIsNonNegative(k2, Dot(d, d));
  }

  /** p lies in the segment thickened by a margin on every side. */
  ghost predicate InThickened(p: Point, a: Point, b: Point, margin: real) {
    exists t :: 0.0 <= t <= 1.0 && Dist2(p, Along(a, b, t)) <= margin * margin
  }

  /** Comparing the distance to the projection with the margin decides membership in the thickened segment. */
  lemma MarginTestIsExact(p: Point, a: Point, b: Point, margin: real)
    ensures SegmentDist2(p, a, b) <= margin * margin <==> InThickened(p, a, b, margin)
  {
    var s := ClampedParameter(p, a, b);
    assert 0.0 <= s <= 1.0;
    if InThickened(p, a, b, margin) {
      var t :| 0.0 <= t <= 1.0 && Dist2(p, Along(a, b, t)) <= margin * margin;
      NothingIsNearer(p, a, b, t);
    }
  }

  /** The editor compares the distance itself, which is the same for a margin that is not negative. */
  lemma ComparingSquares(distance: real, margin: real)
    requires distance >= 0.0 && margin >= 0.0
    ensures distance <= margin <==> distance * distance <= margin * margin
  {
    var sum := distance + margin;
    assert margin * margin - distance * distance == (margin - distance) * sum;
    if distance <= margin {
      ProductIsNonNegative(margin - distance, sum);
    } else {
      assert (distance - margin) * sum > 0.0;
    }
  }

  // ---- Triangles ----

  /** Which side of the line through a and b the point p is on. */
  function Side(p: Point, a: Point, b: Point): real {
    (p.x - b.x) * (a.y - b.y) - (a.x - b.x) * (p.y - b.y)
  }

  predicate PointInTriangle(p: Point, a: Point, b: Point, c: Point) {
    var d1, d2, d3 := Side(p, a, b), Side(p, b, c), Side(p, c, a);
    var hasNeg := d1 < 0.0 || d2 < 0.0 || d3 < 0.0;
    var hasPos := d1 > 0.0 || d2 > 0.0 || d3 > 0.0;
    !(hasNeg && hasPos)
  }

  predicate IsDegenerate(a: Point, b: Point, c: Point) {
    Side(c, a, b) == 0.0
  }

  predicate AreWeights(u: real, v: real, w: real) {
    u >= 0.0 && v >= 0.0 && w >= 0.0 && u + v + w == 1.0
  }

  function Weighted(a: Point, b: Point, c: Point, u: real, v: real, w: real): Point {
    Point(u * a.x + v * b.x + w * c.x, u * a.y + v * b.y + w * c.y)
  }

  /** p is a convex combination of the corners. */
  ghost predicate InHull(p: Point, a: Point, b: Point, c: Point) {
    exists u, v, w :: AreWeights(u, v, w) && p == Weighted(a, b, c, u, v, w)
  }

  /** The three sides of a point add up to the same for all points: twice the signed area. */
  lemma SidesAddUp(p: Point, a: Point, b: Point, c: Point)
    ensures Side(p, a, b) + Side(p, b, c) + Side(p, c, a) == Side(c, a, b)
  {
  }

  /** Each side measures the weight of the opposite corner. */
  lemma SidesAreWeights(p: Point, a: Point, b: Point, c: Point, u: real, v: real, w: real)
    requires u + v + w == 1.0 && p == Weighted(a, b, c, u, v, w)
    ensures Side(p, a, b) == w * Side(c, a, b)
    ensures Side(p, b, c) == u * Side(c, a, b)
    ensures Side(p, c, a) == v * Side(c, a, b)
  {
    var e, f := a.Minus(b), c.Minus(b);
    assert u == 1.0 - v - w;
    assert p.x - b.x == u * e.x + w * f.x && p.y - b.y == u * e.y + w * f.y;
    assert Side(c, a, b) == f.x * e.y - e.x * f.y;
  }

  /** Every point of the plane is a combination of two vectors that are not parallel. */
  lemma CombinesVectors(p: Point, u: Point, v: Point)
    ensures Cross(v, p) * u.x + Cross(p, u) * v.x == Cross(v, u) * p.x
    ensures Cross(v, p) * u.y + Cross(p, u) * v.y == Cross(v, u) * p.y
  {
  }

  lemma DivideSum(r: real, s: real, k: real, q: real)
    requires k != 0.0 && r + s == k * q
    ensures r / k + s / k == q
  {
  }

  lemma SidesAsProducts(p: Point, a: Point, b: Point, c: Point)
    ensures Side(p, a, b) == Cross(p.Minus(b), a.Minus(b))
    ensures Side(p, b, c) == Cross(c.Minus(b), p.Minus(b))
  {
  }

  lemma CombineAroundCorner(p: Point, a: Point, b: Point, c: Point, u: real, v: real, w: real)
    requires u + v + w == 1.0
    requires u * (a.x - b.x) + w * (c.x - b.x) == p.x - b.x
    requires u * (a.y - b.y) + w * (c.y - b.y) == p.y - b.y
    ensures p == Weighted(a, b, c, u, v, w)
  {
    assert v == 1.0 - u - w;
  }

  /** The sides of p, as weights of the corners, give p back. */
  lemma WeightsFromSides(p: Point, a: Point, b: Point, c: Point)
    requires !IsDegenerate(a, b, c)
    ensures var area := Side(c, a, b);
            p == Weighted(a, b, c, Side(p, b, c) / area, Side(p, c, a) / area, Side(p, a, b) / area)
  {
    var area, s, u, w := Side(c, a, b), Side(p, c, a), Side(p, b, c), Side(p, a, b);
    SidesAddUp(p, a, b, c);
    SidesAsProducts(p, a, b, c);
    SidesAsProducts(c, a, b, c);
    CombinesVectors(p.Minus(b), a.Minus(b), c.Minus(b));
    ScaleDown(area, u, w, s, p, a, b, c);
  }

  lemma ScaleDown(area: real, u: real, w: real, s: real, p: Point, a: Point, b: Point, c: Point)
    requires area != 0.0 && u + w + s == area
    requires u * (a.x - b.x) + w * (c.x - b.x) == area * (p.x - b.x)
    requires u * (a.y - b.y) + w * (c.y - b.y) == area * (p.y - b.y)
    ensures p == Weighted(a, b, c, u / area, s / area, w / area)
  {
    DivideCombination(u, a.x - b.x, w, c.x - b.x, area, p.x - b.x);
    DivideCombination(u, a.y - b.y, w, c.y - b.y, area, p.y - b.y);
    DivideSum(u, w + s, area, 1.0);
    DivideSum(w, s, area, (w + s) / area);
    CombineAroundCorner(p, a, b, c, u / area, s / area, w / area);
  }

  lemma DivideCombination(u: real, x: real, w: real, y: real, k: real, q: real)
    requires k != 0.0 && u * x + w * y == k * q
    ensures u / k * x + w / k * y == q
  {
    DivideSum(u * x, w * y, k, q);
    assert u * x / k == u / k * x && w * y / k == w / k * y;
  }

  lemma SidesMakeWeights(u: real, v: real, w: real, area: real)
    requires area != 0.0 && u + v + w == area
    requires !((u < 0.0 || v < 0.0 || w < 0.0) && (u > 0.0 || v > 0.0 || w > 0.0))
    ensures AreWeights(u / area, v / area, w / area)
  {
  }

  lemma SignTestFindsWeights(p: Point, a: Point, b: Point, c: Point)
    requires !IsDegenerate(a, b, c) && PointInTriangle(p, a, b, c)
    ensures InHull(p, a, b, c)
  {
    SidesAddUp(p, a, b, c);
    SidesMakeWeights(Side(p, b, c), Side(p, c, a), Side(p, a, b), Side(c, a, b));
    WeightsFromSides(p, a, b, c);
  }

  /** Points of the triangle always pass the sign test, also when it is degenerate. */
  lemma HullPassesSignTest(p: Point, a: Point, b: Point, c: Point)
    requires InHull(p, a, b, c)
    ensures PointInTriangle(p, a, b, c)
  {
    var u, v, w :| AreWeights(u, v, w) && p == Weighted(a, b, c, u, v, w);
    SidesAreWeights(p, a, b, c, u, v, w);
    var area := Side(c, a, b);
    if area >= 0.0 {
      SameSigns(u, v, w, area);
    } else {
      SameSigns(u, v, w, -area);
    }
  }

  lemma SameSigns(u: real, v: real, w: real, k: real)
    requires u >= 0.0 && v >= 0.0 && w >= 0.0 && k >= 0.0
    ensures u * k >= 0.0 && v * k >= 0.0 && w * k >= 0.0
    ensures u * -k <= 0.0 && v * -k <= 0.0 && w * -k <= 0.0
  {
  }

  /** A direction that all sides of a degenerate triangle have. */
  function Direction(a: Point, b: Point, c: Point): (d: Point)
    requires IsDegenerate(a, b, c)
    ensures d != ORIGIN && Cross(b.Minus(a), d) == 0.0 && Cross(c.Minus(a), d) == 0.0
  {
    if a != b then b.Minus(a) else if a != c then c.Minus(a) else Point(1.0, 0.0)
  }

  /** Going in that direction from a corner, the line through all three is never left. */
  lemma StaysOnLine(a: Point, b: Point, c: Point, d: Point, k: real)
    requires Cross(b.Minus(a), d) == 0.0 && Cross(c.Minus(a), d) == 0.0 && IsDegenerate(a, b, c)
    ensures PointInTriangle(Along(a, a.Plus(d), k), a, b, c)
  {
    var p, e, f := Along(a, a.Plus(d), k), b.Minus(a), c.Minus(a);
    assert p.x - a.x == k * d.x && p.y - a.y == k * d.y;
    assert Side(p, a, b) == k * Cross(e, d);
    assert Side(p, c, a) == -(k * Cross(f, d));
    SidesAddUp(p, a, b, c);
  }

  /** Going beyond the corners in some direction means leaving the triangle. */
  lemma BeyondIsOutside(p: Point, a: Point, b: Point, c: Point, d: Point)
    requires Dot(p.Minus(a), d) > 0.0
    requires Dot(p.Minus(a), d) > Dot(b.Minus(a), d) && Dot(p.Minus(a), d) > Dot(c.Minus(a), d)
    ensures !InHull(p, a, b, c)
  {
    if InHull(p, a, b, c) {
      var u, v, w :| AreWeights(u, v, w) && p == Weighted(a, b, c, u, v, w);
      AdvanceOfWeighted(a, b, c, d, u, v, w);
      MixIsBelow(Dot(b.Minus(a), d), Dot(c.Minus(a), d), Dot(p.Minus(a), d), u, v, w);
    }
  }

  lemma AdvanceOfWeighted(a: Point, b: Point, c: Point, d: Point, u: real, v: real, w: real)
    requires u + v + w == 1.0
    ensures Dot(Weighted(a, b, c, u, v, w).Minus(a), d) == v * Dot(b.Minus(a), d) + w * Dot(c.Minus(a), d)
  {
    var p, e, f := Weighted(a, b, c, u, v, w), b.Minus(a), c.Minus(a);
    assert u == 1.0 - v - w;
    assert p.x - a.x == v * e.x + w * f.x && p.y - a.y == v * e.y + w * f.y;
  }

  lemma MixIsBelow(x: real, y: real, most: real, u: real, v: real, w: real)
    requires AreWeights(u, v, w) && most > 0.0 && most > x && most > y
    ensures v * x + w * y < most
  {
    var fromU := WeightedIsBelow(u, 0.0, most);
    var fromV := WeightedIsBelow(v, x, most);
    var fromW := WeightedIsBelow(w, y, most);
    WeightsSpread(u, v, w, most);
    assert u > 0.0 || v > 0.0 || w > 0.0;
    assert fromU + fromV + fromW > 0.0;
    assert u * 0.0 == 0.0;
  }

  lemma WeightsSpread(u: real, v: real, w: real, most: real)
    requires u + v + w == 1.0
    ensures u * most + v * most + w * most == most
  {
    assert u * most + v * most + w * most == (u + v + w) * most;
  }

  lemma WeightedIsBelow(v: real, x: real, most: real) returns (slack: real)
    requires v >= 0.0 && most > x
    ensures v * x == v * most - slack && slack >= 0.0 && (v > 0.0 ==> slack > 0.0)
  {
    if v > 0.0 {
      slack := PositiveProduct(v, most - x);
    } else {
      slack := 0.0;
    }
  }

  lemma LineLeavesTriangle(a: Point, b: Point, c: Point, d: Point, k: real)
    requires Cross(b.Minus(a), d) == 0.0 && Cross(c.Minus(a), d) == 0.0 && IsDegenerate(a, b, c)
    requires var q := Along(a, a.Plus(d), k).Minus(a);
             Dot(q, d) > 0.0 && Dot(q, d) > Dot(b.Minus(a), d) && Dot(q, d) > Dot(c.Minus(a), d)
    ensures exists p :: PointInTriangle(p, a, b, c) && !InHull(p, a, b, c)
  {
    StaysOnLine(a, b, c, d, k);
    BeyondIsOutside(Along(a, a.Plus(d), k), a, b, c, d);
  }

  /** For a degenerate triangle the test accepts some point outside it. */
  lemma DegenerateAcceptsOutsider(a: Point, b: Point, c: Point)
    requires IsDegenerate(a, b, c)
    ensures exists p :: PointInTriangle(p, a, b, c) && !InHull(p, a, b, c)
  {
    var d := Direction(a, b, c);
    var x, y := Dot(b.Minus(a), d), Dot(c.Minus(a), d);
    var k := ReachBeyond(d, 1.0 + (if x > 0.0 then x else 0.0) + (if y > 0.0 then y else 0.0));
    AdvanceAlong(a, d, k);
    LineLeavesTriangle(a, b, c, d, k);
  }

  lemma ReachBeyond(d: Point, most: real) returns (k: real)
    requires d != ORIGIN
    ensures k * Dot(d, d) == most
  {
    DotWithItself(d);
    k := Quotient(most, Dot(d, d));
  }

  function Quotient(x: real, y: real): (q: real)
    requires y != 0.0
    ensures q * y == x
  {
    x / y
  }

  lemma AdvanceAlong(a: Point, d: Point, k: real)
    ensures Dot(Along(a, a.Plus(d), k).Minus(a), d) == k * Dot(d, d)
  {
    var q := Along(a, a.Plus(d), k).Minus(a);
    assert q.x == k * d.x && q.y == k * d.y;
  }

  /** The sign test is exact on a triangle if and only if the triangle is not degenerate. */
  lemma SignTestIsExactIff(a: Point, b: Point, c: Point)
    ensures (forall p :: PointInTriangle(p, a, b, c) <==> InHull(p, a, b, c)) <==> !IsDegenerate(a, b, c)
  {
    if IsDegenerate(a, b, c) {
      DegenerateAcceptsOutsider(a, b, c);
    } else {
      forall p ensures PointInTriangle(p, a, b, c) <==> InHull(p, a, b, c) {
        if PointInTriangle(p, a, b, c) {
          SignTestFindsWeights(p, a, b, c);
        }
        if InHull(p, a, b, c) {
          HullPassesSignTest(p, a, b, c);
        }
      }
    }
  }
}
