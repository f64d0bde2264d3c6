/** The outline of the editor's arrow: its shaft, its heads and the box around them. */
module ArrowGeometry {
  import opened HitTest

  /**
   The pixel scale and the trigonometry: a unit vector for every direction, which
   points that way (to the right for no direction), and the cosine of 30 degrees.
   */
  datatype Trig = Trig(scale: real, heading: (real, real) -> Point, cos30: real) {
    ghost predicate IsSound() {
      && scale > 0.0
      && cos30 > 0.0 && cos30 * cos30 == 0.75
      && heading(0.0, 0.0) == Point(1.0, 0.0)
      && (forall dx, dy :: Dot(heading(dx, dy), heading(dx, dy)) == 1.0)
      && (forall dx, dy {:trigger PointsAlong(heading(dx, dy), Point(dx, dy))} ::
            PointsAlong(heading(dx, dy), Point(dx, dy)))
    }
  }

  predicate PointsAlong(h: Point, d: Point) {
    Cross(h, d) == 0.0 && (d != ORIGIN ==> Dot(h, d) > 0.0)
  }

  function Max(x: real, y: real): real { if x >= y then x else y }

  function Min(x: real, y: real): real { if x <= y then x else y }

  function Scaled(v: Point, k: real): Point { Point(k * v.x, k * v.y) }

  // ---- What is drawn ----

  datatype Shape = Shape(start: Point, end: Point, strokeWidth: real, startHead: bool) {
    function Moved(v: Point): Shape { this.(start := start.Plus(v), end := end.Plus(v)) }
  }

  /** The shaft's ends and the wings of the heads; without a head at the start its wings are the start. */
  datatype Geometry = Geometry(shaftStart: Point, shaftEnd: Point, head1: Point, head2: Point,
                               tail1: Point, tail2: Point) {
    function Moved(v: Point): Geometry {
      Geometry(shaftStart.Plus(v), shaftEnd.Plus(v), head1.Plus(v), head2.Plus(v), tail1.Plus(v), tail2.Plus(v))
    }
  }

  /** The larger of 14 shown pixels and four strokes. */
  function HeadSize(trig: Trig, strokeWidth: real): (size: real)
    ensures trig.scale > 0.0 ==> size > 0.0
    ensures size >= 14.0 * trig.scale && size >= 4.0 * strokeWidth
    ensures size == 14.0 * trig.scale || size == 4.0 * strokeWidth
  {
    Max(14.0 * trig.scale, strokeWidth * 4.0)
  }

  /** The direction turned by -30 degrees, by the angle sum formulas. */
  function TurnedBack(trig: Trig, h: Point): Point {
    Point(h.x * trig.cos30 + h.y * 0.5, h.y * trig.cos30 - h.x * 0.5)
  }

  /** The direction turned by 30 degrees. */
  function TurnedOn(trig: Trig, h: Point): Point {
    Point(h.x * trig.cos30 - h.y * 0.5, h.y * trig.cos30 + h.x * 0.5)
  }

  function Heading(trig: Trig, s: Shape): Point { trig.heading(s.end.x - s.start.x, s.end.y - s.start.y) }

  /** The vectors from the tip back to the shaft's end and to the wings. */
  datatype Head = Head(back: Point, wing1: Point, wing2: Point)

  function HeadAlong(trig: Trig, h: Point, strokeWidth: real): Head {
    var hs := HeadSize(trig, strokeWidth);
    Head(Scaled(h, hs * trig.cos30), Scaled(TurnedBack(trig, h), hs), Scaled(TurnedOn(trig, h), hs))
  }

  function Placed(s: Shape, head: Head): Geometry {
    var oneHead :=
      Geometry(s.start, s.end.Minus(head.back), s.end.Minus(head.wing1), s.end.Minus(head.wing2), s.start, s.start);
    if !s.startHead then oneHead
    else oneHead.(shaftStart := s.start.Plus(head.back),
                  tail1 := s.start.Plus(head.wing1), tail2 := s.start.Plus(head.wing2))
  }

  function GeometryOf(trig: Trig, s: Shape): Geometry {
    Placed(s, HeadAlong(trig, Heading(trig, s), s.strokeWidth))
  }

  // ---- The box around it ----

  datatype Box = Box(min: Point, max: Point) {
    predicate Covers(p: Point, pad: real) {
      min.x <= p.x - pad && p.x + pad <= max.x && min.y <= p.y - pad && p.y + pad <= max.y
    }

    predicate Within(outer: Box) {
      outer.min.x <= min.x && max.x <= outer.max.x && outer.min.y <= min.y && max.y <= outer.max.y
    }

    function Moved(v: Point): Box { Box(min.Plus(v), max.Plus(v)) }

    function Size(): Point { max.Minus(min) }
  }

  function Min6(a: real, b: real, c: real, d: real, e: real, f: real): real {
    Min(a, Min(b, Min(c, Min(d, Min(e, f)))))
  }

  function Max6(a: real, b: real, c: real, d: real, e: real, f: real): real {
    Max(a, Max(b, Max(c, Max(d, Max(e, f)))))
  }

  function LowCorner(s: Shape, g: Geometry): Point {
    Point(Min6(s.start.x, s.end.x, g.head1.x, g.head2.x, g.tail1.x, g.tail2.x),
          Min6(s.start.y, s.end.y, g.head1.y, g.head2.y, g.tail1.y, g.tail2.y))
  }

  function HighCorner(s: Shape, g: Geometry): Point {
    Point(Max6(s.start.x, s.end.x, g.head1.x, g.head2.x, g.tail1.x, g.tail2.x),
          Max6(s.start.y, s.end.y, g.head1.y, g.head2.y, g.tail1.y, g.tail2.y))
  }

  /** The box around an arrow of some geometry, with half the stroke as padding. */
  function BoxAround(s: Shape, g: Geometry): Box {
    var pad := Point(s.strokeWidth / 2.0, s.strokeWidth / 2.0);
    Box(LowCorner(s, g).Minus(pad), HighCorner(s, g).Plus(pad))
  }

  function BoxOf(trig: Trig, s: Shape): Box { BoxAround(s, GeometryOf(trig, s)) }

  predicate CoversArrow(box: Box, s: Shape, g: Geometry) {
    var pad := s.strokeWidth / 2.0;
    && box.Covers(s.start, pad) && box.Covers(s.end, pad)
    && box.Covers(g.head1, pad) && box.Covers(g.head2, pad)
    && box.Covers(g.tail1, pad) && box.Covers(g.tail2, pad)
  }

  /** The box covers the arrow's corners with half the stroke around them, and no smaller box does. */
  lemma BoxIsTightest(s: Shape, g: Geometry, other: Box)
    ensures CoversArrow(other, s, g) <==> BoxAround(s, g).Within(other)
  {
  }

  // ---- Moving ----

  lemma PlacedMoves(s: Shape, head: Head, v: Point)
    ensures Placed(s.Moved(v), head) == Placed(s, head).Moved(v)
  {
  }

  lemma HeadingStays(trig: Trig, s: Shape, v: Point)
    ensures Heading(trig, s.Moved(v)) == Heading(trig, s)
  {
    var m := s.Moved(v);
    assert m.end.x - m.start.x == s.end.x - s.start.x && m.end.y - m.start.y == s.end.y - s.start.y;
  }

  lemma GeometryMoves(trig: Trig, s: Shape, v: Point)
    ensures GeometryOf(trig, s.Moved(v)) == GeometryOf(trig, s).Moved(v)
  {
    HeadingStays(trig, s, v);
    PlacedMoves(s, HeadAlong(trig, Heading(trig, s), s.strokeWidth), v);
  }

  lemma ExtremesMove(a: real, b: real, c: real, d: real, e: real, f: real, v: real)
    ensures Min6(a + v, b + v, c + v, d + v, e + v, f + v) == Min6(a, b, c, d, e, f) + v
    ensures Max6(a + v, b + v, c + v, d + v, e + v, f + v) == Max6(a, b, c, d, e, f) + v
  {
  }

  lemma LowCornerMoves(s: Shape, g: Geometry, v: Point)
    ensures LowCorner(s.Moved(v), g.Moved(v)) == LowCorner(s, g).Plus(v)
  {
    ExtremesMove(s.start.x, s.end.x, g.head1.x, g.head2.x, g.tail1.x, g.tail2.x, v.x);
    ExtremesMove(s.start.y, s.end.y, g.head1.y, g.head2.y, g.tail1.y, g.tail2.y, v.y);
  }

  lemma HighCornerMoves(s: Shape, g: Geometry, v: Point)
    ensures HighCorner(s.Moved(v), g.Moved(v)) == HighCorner(s, g).Plus(v)
  {
    ExtremesMove(s.start.x, s.end.x, g.head1.x, g.head2.x, g.tail1.x, g.tail2.x, v.x);
    ExtremesMove(s.start.y, s.end.y, g.head1.y, g.head2.y, g.tail1.y, g.tail2.y, v.y);
  }

  /** The box of a moved arrow is the moved box. */
  lemma BoxMoves(trig: Trig, s: Shape, v: Point)
    ensures BoxOf(trig, s.Moved(v)) == BoxOf(trig, s).Moved(v)
  {
    GeometryMoves(trig, s, v);
    LowCornerMoves(s, GeometryOf(trig, s), v);
    HighCornerMoves(s, GeometryOf(trig, s), v);
  }

  // ---- The heads ----

  /** The directions of a head's wings are unit vectors 60 degrees apart. */
  lemma WingsAreApart(trig: Trig, h: Point)
    requires trig.cos30 * trig.cos30 == 0.75 && Dot(h, h) == 1.0
    ensures var b, o := TurnedBack(trig, h), TurnedOn(trig, h);
            && Dot(b, b) == 1.0 && Dot(o, o) == 1.0
            && Dist2(b, o) == 1.0 && Cross(b, o) == trig.cos30
  {
    var c, x, y := trig.cos30, h.x, h.y;
    var b, o := TurnedBack(trig, h), TurnedOn(trig, h);
    assert b.x * b.x == c * c * (x * x) + c * (x * y) + 0.25 * (y * y);
    assert b.y * b.y == c * c * (y * y) - c * (x * y) + 0.25 * (x * x);
    assert o.x * o.x == c * c * (x * x) - c * (x * y) + 0.25 * (y * y);
    assert o.y * o.y == c * c * (y * y) + c * (x * y) + 0.25 * (x * x);
    assert c * c * (x * x) + c * c * (y * y) == c * c * (x * x + y * y);
    assert b.x - o.x == y && b.y - o.y == -x;
    assert Cross(b, o) == c * (x * x + y * y);
  }

  lemma ScaledLength(u: Point, k: real)
    ensures Dot(Scaled(u, k), Scaled(u, k)) == k * k * Dot(u, u)
  {
    assert k * u.x * (k * u.x) == k * k * (u.x * u.x);
    assert k * u.y * (k * u.y) == k * k * (u.y * u.y);
  }

  lemma TriangleFromUnits(tip: Point, b: Point, o: Point, hs: real)
    requires Dot(b, b) == 1.0 && Dot(o, o) == 1.0 && Dist2(b, o) == 1.0
    ensures var w1, w2 := tip.Minus(Scaled(b, hs)), tip.Minus(Scaled(o, hs));
            Dist2(tip, w1) == hs * hs && Dist2(tip, w2) == hs * hs && Dist2(w1, w2) == hs * hs
  {
    ScaledLength(b, hs);
    ScaledLength(o, hs);
    ScaledLength(o.Minus(b), hs);
    var w1, w2 := tip.Minus(Scaled(b, hs)), tip.Minus(Scaled(o, hs));
    assert tip.Minus(w1) == Scaled(b, hs) && tip.Minus(w2) == Scaled(o, hs);
    assert w1.Minus(w2) == Scaled(o.Minus(b), hs);
    DistIsSymmetric(o, b);
  }

  lemma DistIsSymmetric(p: Point, q: Point)
    ensures Dist2(p, q) == Dist2(q, p)
  {
  }

  lemma MiddleOfBase(tip: Point, h: Point, c: real, b: Point, o: Point, hs: real)
    requires b.Plus(o) == Scaled(h, 2.0 * c)
    ensures tip.Minus(Scaled(h, hs * c)) == Along(tip.Minus(Scaled(b, hs)), tip.Minus(Scaled(o, hs)), 0.5)
  {
    assert b.x + o.x == 2.0 * c * h.x && b.y + o.y == 2.0 * c * h.y;
    assert hs * (b.x + o.x) == hs * (2.0 * c * h.x) && hs * (b.y + o.y) == hs * (2.0 * c * h.y);
  }

  /** The arrow's direction is in the middle of the wings'. */
  lemma WingsAddUp(trig: Trig, h: Point)
    ensures TurnedBack(trig, h).Plus(TurnedOn(trig, h)) == Scaled(h, 2.0 * trig.cos30)
  {
  }

  /** The tip and the two wings are the corners of an equilateral triangle. */
  lemma HeadIsEquilateral(trig: Trig, s: Shape)
    requires trig.IsSound()
    ensures var g, hs := GeometryOf(trig, s), HeadSize(trig, s.strokeWidth);
            Dist2(s.end, g.head1) == hs * hs && Dist2(s.end, g.head2) == hs * hs && Dist2(g.head1, g.head2) == hs * hs
  {
    var h := Heading(trig, s);
    WingsAreApart(trig, h);
    TriangleFromUnits(s.end, TurnedBack(trig, h), TurnedOn(trig, h), HeadSize(trig, s.strokeWidth));
  }

  /** The shaft ends in the middle of the head's base. */
  lemma ShaftMeetsHead(trig: Trig, s: Shape)
    ensures var g := GeometryOf(trig, s); g.shaftEnd == Along(g.head1, g.head2, 0.5)
  {
    var h := Heading(trig, s);
    WingsAddUp(trig, h);
    MiddleOfBase(s.end, h, trig.cos30, TurnedBack(trig, h), TurnedOn(trig, h), HeadSize(trig, s.strokeWidth));
  }

  lemma OnTheOtherSide(tip: Point, u: Point, k: real)
    ensures tip.Minus(Scaled(u, -k)) == tip.Plus(Scaled(u, k))
  {
  }

  /** The head at the start, if there is one, is as large, and the shaft starts in the middle of its base. */
  lemma StartHeadIsEquilateral(trig: Trig, s: Shape)
    requires trig.IsSound() && s.startHead
    ensures var g, hs := GeometryOf(trig, s), HeadSize(trig, s.strokeWidth);
            && Dist2(s.start, g.tail1) == hs * hs && Dist2(s.start, g.tail2) == hs * hs
            && Dist2(g.tail1, g.tail2) == hs * hs
  {
    var h, hs := Heading(trig, s), HeadSize(trig, s.strokeWidth);
    WingsAreApart(trig, h);
    TriangleFromUnits(s.start, TurnedBack(trig, h), TurnedOn(trig, h), -hs);
    OnTheOtherSide(s.start, TurnedBack(trig, h), hs);
    OnTheOtherSide(s.start, TurnedOn(trig, h), hs);
    assert -hs * -hs == hs * hs;
  }

  lemma ShaftMeetsStartHead(trig: Trig, s: Shape)
    requires s.startHead
    ensures var g := GeometryOf(trig, s); g.shaftStart == Along(g.tail1, g.tail2, 0.5)
  {
    var h, hs := Heading(trig, s), HeadSize(trig, s.strokeWidth);
    WingsAddUp(trig, h);
    MiddleOfBase(s.start, h, trig.cos30, TurnedBack(trig, h), TurnedOn(trig, h), -hs);
    OnTheOtherSide(s.start, TurnedBack(trig, h), hs);
    OnTheOtherSide(s.start, TurnedOn(trig, h), hs);
    OnTheOtherSide(s.start, h, hs * trig.cos30);
    assert -hs * trig.cos30 == -(hs * trig.cos30);
  }

  /** Without one, shaft and box start at the start. */
  lemma NoStartHead(trig: Trig, s: Shape)
    requires !s.startHead
    ensures var g := GeometryOf(trig, s); g.shaftStart == g.tail1 == g.tail2 == s.start
  {
  }

  /** How far a wing leads along the arrow. */
  lemma WingLeads(trig: Trig, h: Point, d: Point)
    requires trig.cos30 > 0.0 && Dot(h, h) == 1.0 && PointsAlong(h, d) && d != ORIGIN
    ensures Dot(TurnedBack(trig, h), d) > 0.0 && Dot(TurnedOn(trig, h), d) > 0.0
  {
    var c, m := trig.cos30, Dot(h, d);
    AlongHeading(h, d);
    assert d.x == m * h.x && d.y == m * h.y;
    assert Dot(TurnedBack(trig, h), h) == c * Dot(h, h);
    assert Dot(TurnedOn(trig, h), h) == c * Dot(h, h);
    DotScaled(TurnedBack(trig, h), h, m);
    DotScaled(TurnedOn(trig, h), h, m);
    var lead := PositiveProduct(m, c);
  }

  lemma DotScaled(u: Point, v: Point, k: real)
    ensures Dot(u, Scaled(v, k)) == k * Dot(u, v) && Dot(Scaled(u, k), v) == k * Dot(u, v)
  {
    assert u.x * (k * v.x) == k * (u.x * v.x) && u.y * (k * v.y) == k * (u.y * v.y);
    assert k * u.x * v.x == k * (u.x * v.x) && k * u.y * v.y == k * (u.y * v.y);
  }

  /** A vector parallel to a unit vector is a multiple of it. */
  lemma AlongHeading(h: Point, d: Point)
    requires Dot(h, h) == 1.0 && Cross(h, d) == 0.0
    ensures d == Scaled(h, Dot(h, d))
  {
    assert Dot(h, d) * h.x == d.x * Dot(h, h) - h.y * Cross(h, d);
    assert Dot(h, d) * h.y == d.y * Dot(h, h) + h.x * Cross(h, d);
  }

  lemma WingSide(tip: Point, u: Point, hs: real, d: Point)
    requires hs > 0.0 && Dot(u, d) > 0.0
    ensures Dot(tip.Minus(Scaled(u, hs)).Minus(tip), d) < 0.0
    ensures Dot(tip.Plus(Scaled(u, hs)).Minus(tip), d) > 0.0
  {
    var lead := PositiveProduct(hs, Dot(u, d));
    DotScaled(u, d, hs);
    DotScaled(u, d, -hs);
    assert tip.Minus(Scaled(u, hs)).Minus(tip) == Scaled(u, -hs);
    assert tip.Plus(Scaled(u, hs)).Minus(tip) == Scaled(u, hs);
  }

  /** The head points away from the start, and the one at the start away from the end. */
  lemma HeadsPointOutward(trig: Trig, s: Shape)
    requires trig.IsSound() && s.start != s.end
    ensures var g, d := GeometryOf(trig, s), s.end.Minus(s.start);
            && Dot(g.head1.Minus(s.end), d) < 0.0 && Dot(g.head2.Minus(s.end), d) < 0.0
            && (s.startHead ==> Dot(g.tail1.Minus(s.start), d) > 0.0 && Dot(g.tail2.Minus(s.start), d) > 0.0)
  {
    var h, hs, d := Heading(trig, s), HeadSize(trig, s.strokeWidth), s.end.Minus(s.start);
    assert PointsAlong(trig.heading(d.x, d.y), Point(d.x, d.y));
    WingLeads(trig, h, d);
    WingSide(s.end, TurnedBack(trig, h), hs, d);
    WingSide(s.end, TurnedOn(trig, h), hs, d);
    WingSide(s.start, TurnedBack(trig, h), hs, d);
    WingSide(s.start, TurnedOn(trig, h), hs, d);
  }

  lemma SpreadIsSolid(tip: Point, b: Point, o: Point, hs: real)
    requires hs > 0.0 && Cross(b, o) > 0.0
    ensures !IsDegenerate(tip, tip.Minus(Scaled(b, hs)), tip.Minus(Scaled(o, hs)))
    ensures !IsDegenerate(tip, tip.Plus(Scaled(b, hs)), tip.Plus(Scaled(o, hs)))
  {
    var hs2 := PositiveProduct(hs, hs);
    var area := PositiveProduct(hs2, Cross(b, o));
    assert Side(tip.Minus(Scaled(o, hs)), tip, tip.Minus(Scaled(b, hs))) == area;
    assert Side(tip.Plus(Scaled(o, hs)), tip, tip.Plus(Scaled(b, hs))) == area;
  }

  /** No head is degenerate, whatever the arrow. */
  lemma HeadsAreSolid(trig: Trig, s: Shape)
    requires trig.IsSound()
    ensures var g := GeometryOf(trig, s);
            && !IsDegenerate(s.end, g.head1, g.head2)
            && (s.startHead ==> !IsDegenerate(s.start, g.tail1, g.tail2))
  {
    var h := Heading(trig, s);
    WingsAreApart(trig, h);
    SpreadIsSolid(s.end, TurnedBack(trig, h), TurnedOn(trig, h), HeadSize(trig, s.strokeWidth));
    SpreadIsSolid(s.start, TurnedBack(trig, h), TurnedOn(trig, h), HeadSize(trig, s.strokeWidth));
  }

  // ---- Hit tests ----

  /** Half the stroke and 3 shown pixels around the shaft's axis, and 6 shown pixels at least. */
  function Margin(trig: Trig, strokeWidth: real): (margin: real)
    ensures trig.scale > 0.0 ==> margin > 0.0
    ensures margin >= strokeWidth / 2.0 + 3.0 * trig.scale && margin >= 6.0 * trig.scale
    ensures margin == strokeWidth / 2.0 + 3.0 * trig.scale || margin == 6.0 * trig.scale
  {
    Max(strokeWidth / 2.0 + 3.0 * trig.scale, 6.0 * trig.scale)
  }

  /** p is in the thickened shaft or in a head. */
  ghost predicate IsOnParts(g: Geometry, s: Shape, margin: real, p: Point) {
    || InThickened(p, g.shaftStart, g.shaftEnd, margin)
    || (s.startHead && InHull(p, s.start, g.tail1, g.tail2))
    || InHull(p, s.end, g.head1, g.head2)
  }

  ghost predicate IsOn(trig: Trig, s: Shape, p: Point) {
    IsOnParts(GeometryOf(trig, s), s, Margin(trig, s.strokeWidth), p)
  }

  lemma CornersAreInHull(a: Point, b: Point, c: Point)
    ensures InHull(a, a, b, c) && InHull(b, a, b, c) && InHull(c, a, b, c)
  {
    assert AreWeights(1.0, 0.0, 0.0) && a == Weighted(a, b, c, 1.0, 0.0, 0.0);
    assert AreWeights(0.0, 1.0, 0.0) && b == Weighted(a, b, c, 0.0, 1.0, 0.0);
    assert AreWeights(0.0, 0.0, 1.0) && c == Weighted(a, b, c, 0.0, 0.0, 1.0);
  }

  lemma PointIsThickened(a: Point, b: Point, margin: real, t: real)
    requires 0.0 <= t <= 1.0 && margin >= 0.0
    ensures InThickened(Along(a, b, t), a, b, margin)
  {
    var p := Along(a, b, t);
    ProductIsNonNegative(margin, margin);
    assert p.Minus(p) == ORIGIN;
    DotWithOrigin(ORIGIN);
  }

  /** The tip and wings of every head there is are on the arrow, and all of the shaft. */
  lemma PartsAreOn(g: Geometry, s: Shape, margin: real, t: real)
    requires 0.0 <= t <= 1.0 && margin >= 0.0
    ensures IsOnParts(g, s, margin, s.end) && IsOnParts(g, s, margin, g.head1) && IsOnParts(g, s, margin, g.head2)
    ensures s.startHead ==>
              IsOnParts(g, s, margin, s.start) && IsOnParts(g, s, margin, g.tail1) && IsOnParts(g, s, margin, g.tail2)
    ensures IsOnParts(g, s, margin, Along(g.shaftStart, g.shaftEnd, t))
  {
    CornersAreInHull(s.end, g.head1, g.head2);
    CornersAreInHull(s.start, g.tail1, g.tail2);
    PointIsThickened(g.shaftStart, g.shaftEnd, margin, t);
  }

  /** The tests the editor makes: the distance from the shaft, then the heads. */
  predicate Hits(g: Geometry, s: Shape, margin: real, p: Point) {
    || SegmentDist2(p, g.shaftStart, g.shaftEnd) <= margin * margin
    || (s.startHead && PointInTriangle(p, s.start, g.tail1, g.tail2))
    || PointInTriangle(p, s.end, g.head1, g.head2)
  }

  lemma HitsIsExactFor(g: Geometry, s: Shape, margin: real, p: Point)
    requires !IsDegenerate(s.end, g.head1, g.head2)
    requires s.startHead ==> !IsDegenerate(s.start, g.tail1, g.tail2)
    ensures Hits(g, s, margin, p) <==> IsOnParts(g, s, margin, p)
  {
    MarginTestIsExact(p, g.shaftStart, g.shaftEnd, margin);
    SignTestIsExactIff(s.end, g.head1, g.head2);
    SignTestIsExactIff(s.start, g.tail1, g.tail2);
  }

  /** Hit-testing an arrow is exact. */
  lemma HitsIsExact(trig: Trig, s: Shape, p: Point)
    requires trig.IsSound()
    ensures Hits(GeometryOf(trig, s), s, Margin(trig, s.strokeWidth), p) <==> IsOn(trig, s, p)
  {
    HeadsAreSolid(trig, s);
    HitsIsExactFor(GeometryOf(trig, s), s, Margin(trig, s.strokeWidth), p);
  }
}
