/**
  The collision tests of a Body. They only read the fields of the bodies
  involved, so they are modelled as functions of `Shape`, the value made of
  those fields (the class `Bodies.Body` hands out its current `Shape`).
 */
module Collision {
  import opened Vectors

  /** Whether a body is a circle or a rectangle; `None` is the tag a body
      has before a shape-specific constructor sets it. */
  datatype BodyType = Box | Circle | None

  /** The fields of a body that the collision tests read: its tag, its
      position (the top-left corner of a box; the tests use it as the centre
      of a circle), its radius and its extent. */
  datatype Shape = Shape(kind: BodyType, pos: Vec, radius: real, size: Vec) {

    /** Box test against a rectangle given by position and size: the two
        rectangles overlap strictly on both axes. */
    function BoxCollidesRect(oPos: Vec, oSize: Vec): bool {
      (pos.y < oPos.y + oSize.y)
      && (pos.y + size.y > oPos.y)
      && (pos.x < oPos.x + oSize.x)
      && (pos.x + size.x > oPos.x)
    }

    /** Box test against another body's rectangle; it agrees with the
        position-and-size form given that body's `pos` and `size`. */
    function BoxCollidesBox(other: Shape): (r: bool)
      ensures r == BoxCollidesRect(other.pos, other.size)
    {
      (pos.y < other.pos.y + other.size.y)
      && (pos.y + size.y > other.pos.y)
      && (pos.x < other.pos.x + other.size.x)
      && (pos.x + size.x > other.pos.x)
    }

    /** Circle test: the distance between the two centres is below the sum
        of the radii. A distance is never negative, so the test fails when
        that sum is not positive, and otherwise compares squares. */
    function CircleCollidesCircle(other: Shape): (r: bool)
      ensures radius >= 0.0 && other.radius >= 0.0 ==>
                (r <==> SquaredDistance(pos, other.pos) < (radius + other.radius) * (radius + other.radius))
    {
      var reach := radius + other.radius;
      reach > 0.0 && SquaredDistance(pos, other.pos) < reach * reach
    }

    /** Origin of the square that bounds a circle: its position less its
        radius on both axes. */
    function BoundingOrigin(): Vec {
      pos.Minus(Vec(radius, radius))
    }

    /** Test of this box against `circle`: first the bounding square of the
        circle against the box, then the circle's centre against the box's
        horizontal and vertical spans, and last the four corners of the box
        against the circle's radius. */
    function CircleCollidesBox(circle: Shape): (r: bool)
      ensures r ==> BoxCollidesRect(circle.BoundingOrigin(), circle.size)
    {
      if !BoxCollidesRect(circle.pos.Minus(Vec(circle.radius, circle.radius)), circle.size) then
        false
      else if circle.pos.x > pos.x && circle.pos.x < pos.x + size.x then
        true
      else if circle.pos.y > pos.y && circle.pos.y < pos.y + size.y then
        true
      else
        var squaredRadius := circle.radius * circle.radius;
        SquaredDistance(pos, circle.pos) < squaredRadius
        || SquaredDistance(pos.Plus(Vec(size.x, 0.0)), circle.pos) < squaredRadius
        || SquaredDistance(pos.Plus(Vec(0.0, size.y)), circle.pos) < squaredRadius
        || SquaredDistance(pos.Plus(Vec(size.x, size.y)), circle.pos) < squaredRadius
    }

    /** Collision test between two bodies, dispatched on their tags: two
        circles, two bodies with the same other tag, or a mixed pair, which
        is always tested from the side of the body that is not taken as the
        circle. */
    function CheckCollision(other: Shape): bool {
      if other.kind == kind then
        if kind == Circle then CircleCollidesCircle(other) else BoxCollidesBox(other)
      else if kind == Box then
        CircleCollidesBox(other)
      else
        other.CircleCollidesBox(this)
    }
  }

  /** Whether a shape is a circle as the circle constructor builds it with a
      positive radius: its extent is the diameter on both axes. */
  predicate RoundCircle(c: Shape) {
    c.radius > 0.0 && c.size == Vec(2.0 * c.radius, 2.0 * c.radius)
  }

  /** Whether a shape's extent is non-negative on both axes. */
  predicate NonNegativeSize(b: Shape) {
    b.size.x >= 0.0 && b.size.y >= 0.0
  }

  /** Whether a point lies strictly inside a rectangle, off its edges. */
  predicate InInterior(p: Vec, origin: Vec, size: Vec) {
    origin.x < p.x < origin.x + size.x && origin.y < p.y < origin.y + size.y
  }

  /** The point of a rectangle nearest to `p`: each coordinate clamped to
      the rectangle's range. */
  function NearestPointInBox(p: Vec, origin: Vec, size: Vec): (r: Vec)
    ensures size.x >= 0.0 && size.y >= 0.0 ==> r.InsideBox(origin, size)
    ensures p.InsideBox(origin, size) ==> r == p
  {
    Vec(Clamp(p.x, origin.x, origin.x + size.x), Clamp(p.y, origin.y, origin.y + size.y))
  }

  function Min(a: real, b: real): real { if a <= b then a else b }

  function Max(a: real, b: real): real { if a <= b then b else a }

  // ---------------------------------------------------------------------
  // Box against box

  /** The two box tests are symmetric in the two rectangles. */
  lemma BoxCollidesBoxSymmetric(a: Shape, b: Shape)
    ensures a.BoxCollidesBox(b) == b.BoxCollidesBox(a)
    ensures a.BoxCollidesRect(b.pos, b.size) == b.BoxCollidesRect(a.pos, a.size)
  {
  }

  /** Rectangles that only share an edge do not collide. */
  lemma BoxTouchingEdgeDoesNotCollide(a: Shape, b: Shape)
    requires a.pos.x + a.size.x == b.pos.x || b.pos.x + b.size.x == a.pos.x
          || a.pos.y + a.size.y == b.pos.y || b.pos.y + b.size.y == a.pos.y
    ensures !a.BoxCollidesBox(b)
  {
  }

  /** For rectangles of positive extent, the box test holds exactly when some
      point lies strictly inside both. */
  lemma BoxCollidesIffSharedInterior(a: Shape, b: Shape)
    requires a.size.x > 0.0 && a.size.y > 0.0 && b.size.x > 0.0 && b.size.y > 0.0
    ensures a.BoxCollidesBox(b) <==> exists p :: InInterior(p, a.pos, a.size) && InInterior(p, b.pos, b.size)
  {
    if a.BoxCollidesBox(b) {
      var loX := Max(a.pos.x, b.pos.x);
      var hiX := Min(a.pos.x + a.size.x, b.pos.x + b.size.x);
      var loY := Max(a.pos.y, b.pos.y);
      var hiY := Min(a.pos.y + a.size.y, b.pos.y + b.size.y);
      var mid := Vec((loX + hiX) / 2.0, (loY + hiY) / 2.0);
      assert InInterior(mid, a.pos, a.size) && InInterior(mid, b.pos, b.size);
    }
  }

  /** The position-and-size overload read geometrically: for rectangles of
      positive extent it holds exactly when some point lies strictly inside
      both. */
  lemma BoxCollidesRectIffSharedInterior(a: Shape, oPos: Vec, oSize: Vec)
    requires a.size.x > 0.0 && a.size.y > 0.0 && oSize.x > 0.0 && oSize.y > 0.0
    ensures a.BoxCollidesRect(oPos, oSize) <==>
              exists p :: InInterior(p, a.pos, a.size) && InInterior(p, oPos, oSize)
  {
    BoxCollidesIffSharedInterior(a, Shape(Box, oPos, 0.0, oSize));
  }

  /** A rectangle of zero extent is not ignored by the box test: one lying
      strictly inside another rectangle collides with it. */
  lemma ZeroSizeBoxCanCollide()
    ensures Shape(Box, Vec(1.0, 1.0), 0.0, Zero).BoxCollidesBox(Shape(Box, Zero, 0.0, Vec(2.0, 2.0)))
  {
  }

  // ---------------------------------------------------------------------
  // Circle against circle

  /** The circle test agrees with comparing the exact distance `d` between
      the centres (any non-negative root of the squared distance) with the
      sum of the radii, and it is symmetric. */
  lemma CircleCollidesCircleByDistance(a: Shape, b: Shape, d: real)
    requires d >= 0.0 && d * d == SquaredDistance(a.pos, b.pos)
    ensures a.CircleCollidesCircle(b) <==> d < a.radius + b.radius
    ensures a.CircleCollidesCircle(b) == b.CircleCollidesCircle(a)
  {
    SquaredDistanceSymmetric(a.pos, b.pos);
    var reach := a.radius + b.radius;
    if reach > 0.0 {
      SquareMonotone(d, reach);
    }
  }

  /** The circle test does not depend on which circle calls it. */
  lemma CircleCollidesCircleSymmetric(a: Shape, b: Shape)
    ensures a.CircleCollidesCircle(b) == b.CircleCollidesCircle(a)
  {
    SquaredDistanceSymmetric(a.pos, b.pos);
  }

  // ---------------------------------------------------------------------
  // Circle against box

  /** One axis of the circle-box test: `c` is the circle's coordinate, the
      box spans `lo` to `lo + w`. The bounding-square test on this axis
      holds exactly when the clamped coordinate is within `r` of `c`. */
  lemma AxisFacts(c: real, lo: real, w: real, r: real)
    requires w >= 0.0 && r > 0.0
    ensures (lo < c - r + 2.0 * r && lo + w > c - r) <==> Abs(Clamp(c, lo, lo + w) - c) < r
  {
  }

  /** Inside the open span of an axis clamping keeps the coordinate; outside
      it, clamping gives the end of the span on the coordinate's side. */
  lemma SpanFacts(c: real, lo: real, w: real)
    requires w >= 0.0
    ensures c > lo && c < lo + w ==> Clamp(c, lo, lo + w) == c
    ensures !(c > lo && c < lo + w) ==> Clamp(c, lo, lo + w) == if c <= lo then lo else lo + w
  {
  }

  /** The bounding-square stage of the circle-box test, read per axis
      through the nearest point of the box. */
  lemma BoundsByNearestPoint(box: Shape, circle: Shape)
    requires NonNegativeSize(box) && RoundCircle(circle)
    ensures var n := NearestPointInBox(circle.pos, box.pos, box.size);
            box.BoxCollidesRect(circle.BoundingOrigin(), circle.size) <==>
              Abs(n.x - circle.pos.x) < circle.radius && Abs(n.y - circle.pos.y) < circle.radius
  {
    AxisFacts(circle.pos.x, box.pos.x, box.size.x, circle.radius);
    AxisFacts(circle.pos.y, box.pos.y, box.size.y, circle.radius);
  }

  /** No point of a rectangle is closer to `c` than its nearest point. */
  lemma NearestPointIsNearest(c: Vec, origin: Vec, size: Vec, k: Vec)
    requires k.InsideBox(origin, size)
    ensures SquaredDistance(NearestPointInBox(c, origin, size), c) <= SquaredDistance(k, c)
  {
    ClampIsNearest(c.x, origin.x, origin.x + size.x, k.x);
    ClampIsNearest(c.y, origin.y, origin.y + size.y, k.y);
  }

  /** Within a span, one offset `d0` is zero and the other, `d`, is below
      the radius. The zero offset is a parameter equal to `0.0`, rather than
      a literal, so that the caller passes its own offset `n.x - c.x` and
      gets the ensures about the squares of that very term. */
  lemma OneAxisWithin(d0: real, d: real, r: real)
    requires d0 == 0.0 && Abs(d) < r
    ensures d0 * d0 + d * d < r * r && d * d + d0 * d0 < r * r
  {
    SquareMonotone(d, r);
  }

  /** When the circle-box test holds, the nearest point of the box is closer
      to the centre than the radius. */
  lemma CircleCollidesBoxSound(box: Shape, circle: Shape)
    requires NonNegativeSize(box) && RoundCircle(circle)
    requires box.CircleCollidesBox(circle)
    ensures SquaredDistance(NearestPointInBox(circle.pos, box.pos, box.size), circle.pos)
            < circle.radius * circle.radius
  {
    var c, r, o, s := circle.pos, circle.radius, box.pos, box.size;
    var n := NearestPointInBox(c, o, s);
    BoundsByNearestPoint(box, circle);
    SpanFacts(c.x, o.x, s.x);
    SpanFacts(c.y, o.y, s.y);
    if c.x > o.x && c.x < o.x + s.x {
      OneAxisWithin(n.x - c.x, n.y - c.y, r);
    } else if c.y > o.y && c.y < o.y + s.y {
      OneAxisWithin(n.y - c.y, n.x - c.x, r);
    } else {
      NearestPointIsNearest(c, o, s, o);
      NearestPointIsNearest(c, o, s, o.Plus(Vec(s.x, 0.0)));
      NearestPointIsNearest(c, o, s, o.Plus(Vec(0.0, s.y)));
      NearestPointIsNearest(c, o, s, o.Plus(Vec(s.x, s.y)));
    }
  }

  lemma PartsBelow(a: real, b: real, t: real)
    requires a >= 0.0 && b >= 0.0 && a + b < t
    ensures a < t && b < t
  {
  }

  /** Offsets whose squares sum to less than `r * r` are each below `r`. */
  lemma OffsetsWithin(dx: real, dy: real, r: real)
    requires r > 0.0 && dx * dx + dy * dy < r * r
    ensures Abs(dx) < r && Abs(dy) < r
  {
    SquareNonNegative(dx);
    SquareNonNegative(dy);
    PartsBelow(dx * dx, dy * dy, r * r);
    SquareMonotone(dx, r);
    SquareMonotone(dy, r);
  }

  /** Off both spans, the nearest point of the box is one of its corners,
      so the corner stage of the test sees it. */
  lemma CornerStageComplete(box: Shape, circle: Shape)
    requires NonNegativeSize(box)
    requires !(circle.pos.x > box.pos.x && circle.pos.x < box.pos.x + box.size.x)
    requires !(circle.pos.y > box.pos.y && circle.pos.y < box.pos.y + box.size.y)
    requires SquaredDistance(NearestPointInBox(circle.pos, box.pos, box.size), circle.pos)
             < circle.radius * circle.radius
    ensures var o, s, sq := box.pos, box.size, circle.radius * circle.radius;
            SquaredDistance(o, circle.pos) < sq
            || SquaredDistance(o.Plus(Vec(s.x, 0.0)), circle.pos) < sq
            || SquaredDistance(o.Plus(Vec(0.0, s.y)), circle.pos) < sq
            || SquaredDistance(o.Plus(Vec(s.x, s.y)), circle.pos) < sq
  {
    var c, o, s := circle.pos, box.pos, box.size;
    var n := NearestPointInBox(c, o, s);
    SpanFacts(c.x, o.x, s.x);
    SpanFacts(c.y, o.y, s.y);
    var k := if c.x <= o.x then
               (if c.y <= o.y then o else o.Plus(Vec(0.0, s.y)))
             else
               (if c.y <= o.y then o.Plus(Vec(s.x, 0.0)) else o.Plus(Vec(s.x, s.y)));
    assert k == n;
  }

  /** A nearest point closer than the radius passes the bounding stage. */
  lemma BoundsStageComplete(box: Shape, circle: Shape)
    requires NonNegativeSize(box) && RoundCircle(circle)
    requires SquaredDistance(NearestPointInBox(circle.pos, box.pos, box.size), circle.pos)
             < circle.radius * circle.radius
    ensures box.BoxCollidesRect(circle.BoundingOrigin(), circle.size)
  {
    var c, r := circle.pos, circle.radius;
    var n := NearestPointInBox(c, box.pos, box.size);
    assert SquaredDistance(n, c) == (n.x - c.x) * (n.x - c.x) + (n.y - c.y) * (n.y - c.y);
    OffsetsWithin(n.x - c.x, n.y - c.y, r);
    BoundsByNearestPoint(box, circle);
  }

  /** When the nearest point of the box is closer to the centre than the
      radius, the circle-box test holds. */
  lemma CircleCollidesBoxComplete(box: Shape, circle: Shape)
    requires NonNegativeSize(box) && RoundCircle(circle)
    requires SquaredDistance(NearestPointInBox(circle.pos, box.pos, box.size), circle.pos)
             < circle.radius * circle.radius
    ensures box.CircleCollidesBox(circle)
  {
    BoundsStageComplete(box, circle);
    var c, o, s := circle.pos, box.pos, box.size;
    if !(c.x > o.x && c.x < o.x + s.x) && !(c.y > o.y && c.y < o.y + s.y) {
      CornerStageComplete(box, circle);
    }
  }

  /** For a box of non-negative extent and a circle as the circle constructor
      builds it, the circle-box test holds exactly when the point of the box
      nearest to the circle's centre is closer than the radius. */
  lemma CircleCollidesBoxExact(box: Shape, circle: Shape)
    requires NonNegativeSize(box) && RoundCircle(circle)
    ensures box.CircleCollidesBox(circle) <==>
              SquaredDistance(NearestPointInBox(circle.pos, box.pos, box.size), circle.pos)
              < circle.radius * circle.radius
  {
    if box.CircleCollidesBox(circle) {
      CircleCollidesBoxSound(box, circle);
    } else if SquaredDistance(NearestPointInBox(circle.pos, box.pos, box.size), circle.pos)
              < circle.radius * circle.radius {
      CircleCollidesBoxComplete(box, circle);
    }
  }

  /** The same test read geometrically: it holds exactly when some point of
      the box, edges included, is closer to the circle's centre than the
      radius. */
  lemma CircleCollidesBoxGeometric(box: Shape, circle: Shape)
    requires NonNegativeSize(box) && RoundCircle(circle)
    ensures box.CircleCollidesBox(circle) <==>
              exists q: Vec :: q.InsideBox(box.pos, box.size)
                               && SquaredDistance(q, circle.pos) < circle.radius * circle.radius
  {
    CircleCollidesBoxExact(box, circle);
    var n := NearestPointInBox(circle.pos, box.pos, box.size);
    if exists q: Vec :: q.InsideBox(box.pos, box.size)
                        && SquaredDistance(q, circle.pos) < circle.radius * circle.radius {
      var q: Vec :| q.InsideBox(box.pos, box.size)
                    && SquaredDistance(q, circle.pos) < circle.radius * circle.radius;
      NearestPointIsNearest(circle.pos, box.pos, box.size, q);
    }
    assert n.InsideBox(box.pos, box.size);
  }

  // ---------------------------------------------------------------------
  // Dispatch

  /** Which test `CheckCollision` runs for each pair of tags. */
  lemma CheckCollisionDispatch(a: Shape, b: Shape)
    ensures a.kind == Circle && b.kind == Circle ==> a.CheckCollision(b) == a.CircleCollidesCircle(b)
    ensures a.kind == b.kind && a.kind != Circle ==> a.CheckCollision(b) == a.BoxCollidesBox(b)
    ensures a.kind != b.kind && a.kind == Box ==> a.CheckCollision(b) == a.CircleCollidesBox(b)
    ensures a.kind != b.kind && a.kind != Box ==> a.CheckCollision(b) == b.CircleCollidesBox(a)
  {
  }

  /** The collision test gives the same answer from either side, unless the
      pair is a circle and an untagged body. */
  lemma CheckCollisionSymmetric(a: Shape, b: Shape)
    requires !(a.kind == Circle && b.kind == None) && !(a.kind == None && b.kind == Circle)
    ensures a.CheckCollision(b) == b.CheckCollision(a)
  {
  }

  /** For a box and a circle, whichever side calls, the collision test holds
      exactly when some point of the box, edges included, is closer to the
      circle's centre than its radius. */
  lemma CheckCollisionBoxCircle(box: Shape, circle: Shape)
    requires box.kind == Box && circle.kind == Circle
    requires NonNegativeSize(box) && RoundCircle(circle)
    ensures box.CheckCollision(circle) <==>
              exists q: Vec :: q.InsideBox(box.pos, box.size)
                               && SquaredDistance(q, circle.pos) < circle.radius * circle.radius
    ensures circle.CheckCollision(box) == box.CheckCollision(circle)
  {
    CircleCollidesBoxGeometric(box, circle);
  }

  /** For a circle and an untagged body the two directions can disagree:
      each side takes the other as the circle. */
  lemma CheckCollisionCircleNoneAsymmetric()
    ensures var circle := Shape(Circle, Zero, 1.0, Vec(2.0, 2.0));
            var untagged := Shape(None, Vec(-0.5, -0.5), 0.0, Zero);
            circle.CheckCollision(untagged) && !untagged.CheckCollision(circle)
  {
  }
}
