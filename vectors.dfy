/**
  The 2D vector type of the physics helpers and the free functions that work on
  vectors and scalars. Coordinates are exact reals: the `float` arithmetic of the
  original is idealised, and `powf(v, 2)` is written `v * v`.
 */
module Vectors {

  /** A point or displacement with an x and a y component. */
  datatype Vec = Vec(x: real, y: real) {

    /** Component-wise sum (the `+` operator). */
    function Plus(other: Vec): Vec {
      Vec(x + other.x, y + other.y)
    }

    /** Component-wise difference (the `-` operator). */
    function Minus(other: Vec): Vec {
      Vec(x - other.x, y - other.y)
    }

    /** Multiplication by a scalar (the `*` operator taking a value). */
    function Scale(value: real): Vec {
      Vec(x * value, y * value)
    }

    /** Component-wise product (the `*` operator taking a vector). */
    function Times(other: Vec): Vec {
      Vec(x * other.x, y * other.y)
    }

    /** The magnitude before the square root is taken. */
    function SquaredMagnitude(): (r: real)
      ensures r >= 0.0
    {
      SquareNonNegative(x);
      SquareNonNegative(y);
      x * x + y * y
    }

    /** Whether this point lies in the box at `origin` extending by `size`;
        every edge of the box belongs to it. */
    function InsideBox(origin: Vec, size: Vec): (r: bool)
      ensures r <==> origin.x <= x <= origin.x + size.x && origin.y <= y <= origin.y + size.y
    {
      !((x < origin.x || x > origin.x + size.x) || (y < origin.y || y > origin.y + size.y))
    }
  }

  /** The zero vector, what the default constructor builds. */
  const Zero := Vec(0.0, 0.0)

  /** Squared Euclidean distance between two points. */
  function SquaredDistance(p1: Vec, p2: Vec): (r: real)
    ensures r >= 0.0
  {
    SquareNonNegative(p1.x - p2.x);
    SquareNonNegative(p1.y - p2.y);
    (p1.x - p2.x) * (p1.x - p2.x) + (p1.y - p2.y) * (p1.y - p2.y)
  }

  /** Restricts `val` to the interval from `min` to `max`. When `min > max`
      the lower bound is tested first, so the result is then not ordered. */
  function Clamp(val: real, min: real, max: real): (r: real)
    ensures r == val || r == min || r == max
    ensures val < min ==> r == min
    ensures !(val < min) && val > max ==> r == max
    ensures min <= max ==> min <= r <= max
    ensures min <= val <= max ==> r == val
    ensures r == val <==> !(val < min) && !(val > max)
  {
    if val < min then min
    else if val > max then max
    else val
  }

  /** Dot product. */
  function Dot(v1: Vec, v2: Vec): real {
    (v1.x * v2.x) + (v1.y * v2.y)
  }

  /** The absolute value of a real. */
  function Abs(a: real): (r: real)
    ensures r >= 0.0 && (r == a || r == -a)
  {
    if a < 0.0 then -a else a
  }

  lemma SquareNonNegative(a: real)
    ensures a * a >= 0.0
  {
    if a < 0.0 {
      assert a * a == (-a) * (-a);
    }
  }

  lemma SquareAbs(a: real)
    ensures a * a == Abs(a) * Abs(a)
  {
    if a < 0.0 {
      assert a * a == (-a) * (-a);
    }
  }

  lemma LeSquares(p: real, q: real)
    requires 0.0 <= p <= q
    ensures p * p <= q * q
  {
    assert p * p <= q * p;
    assert p * q <= q * q;
    assert p * q == q * p;
  }

  lemma LtSquares(p: real, q: real)
    requires 0.0 <= p < q
    ensures p * p < q * q
  {
    var d := q - p;
    assert q * q == p * p + 2.0 * p * d + d * d;
    assert d * d > 0.0;
    assert p * d >= 0.0;
  }

  /** Comparing squares compares absolute values, both strictly and not. */
  lemma SquareMonotone(a: real, b: real)
    ensures Abs(a) <= Abs(b) ==> a * a <= b * b
    ensures Abs(a) < Abs(b) ==> a * a < b * b
    ensures a * a < b * b ==> Abs(a) < Abs(b)
    ensures a * a <= b * b ==> Abs(a) <= Abs(b)
  {
    SquareAbs(a);
    SquareAbs(b);
    if Abs(a) <= Abs(b) {
      LeSquares(Abs(a), Abs(b));
      if Abs(a) < Abs(b) {
        LtSquares(Abs(a), Abs(b));
      }
    } else {
      LtSquares(Abs(b), Abs(a));
    }
  }

  /** Adding and then subtracting the same vector gives back the original,
      in either order. */
  lemma PlusMinusInverse(a: Vec, b: Vec)
    ensures a.Plus(b).Minus(b) == a
    ensures a.Minus(b).Plus(b) == a
    ensures a.Minus(a) == Zero
    ensures a.Plus(b) == b.Plus(a)
  {
  }

  /** Addition is associative, and the zero vector is its identity. */
  lemma PlusProperties(a: Vec, b: Vec, c: Vec)
    ensures a.Plus(b).Plus(c) == a.Plus(b.Plus(c))
    ensures a.Plus(Zero) == a && Zero.Plus(a) == a
  {
  }

  /** The zero vector, what the default constructor builds, has squared
      magnitude zero, is what scaling by zero gives, and is the difference
      of a vector with itself. */
  lemma ZeroProperties(v: Vec)
    ensures Zero.SquaredMagnitude() == 0.0
    ensures v.Scale(0.0) == Zero
    ensures v.Minus(v) == Zero
    ensures v.Times(Zero) == Zero
  {
    assert Zero.x * Zero.x + Zero.y * Zero.y == 0.0;
    assert v.x * 0.0 == 0.0 && v.y * 0.0 == 0.0;
    assert v.Scale(0.0) == Vec(0.0, 0.0);
    assert v.Times(Zero) == Vec(0.0, 0.0);
  }

  /** Scaling distributes over addition and composes by multiplying the
      factors. */
  lemma ScaleDistributes(a: Vec, b: Vec, k: real, m: real)
    ensures a.Plus(b).Scale(k) == a.Scale(k).Plus(b.Scale(k))
    ensures a.Scale(k).Scale(m) == a.Scale(k * m)
  {
    assert (a.x * k) * m == a.x * (k * m);
    assert (a.y * k) * m == a.y * (k * m);
  }

  /** The component-wise product is commutative, distributes over addition
      and has `(1, 1)` as its identity. */
  lemma TimesProperties(a: Vec, b: Vec, c: Vec)
    ensures a.Times(b) == b.Times(a)
    ensures a.Plus(b).Times(c) == a.Times(c).Plus(b.Times(c))
    ensures a.Times(Vec(1.0, 1.0)) == a
  {
  }

  /** The dot product is linear in its first argument. */
  lemma DotLinear(a: Vec, b: Vec, c: Vec, k: real)
    ensures Dot(a.Plus(b), c) == Dot(a, c) + Dot(b, c)
    ensures Dot(a.Scale(k), c) == k * Dot(a, c)
  {
    assert (a.x * k) * c.x == k * (a.x * c.x);
    assert (a.y * k) * c.y == k * (a.y * c.y);
  }

  /** Scaling multiplies the squared magnitude by the square of the factor,
      agrees with the component-wise product by a diagonal vector (in either
      order) and leaves a vector unchanged when the factor is one. */
  lemma ScaleProperties(v: Vec, k: real)
    ensures v.Scale(k).SquaredMagnitude() == k * k * v.SquaredMagnitude()
    ensures v.Scale(k) == v.Times(Vec(k, k))
    ensures v.Scale(1.0) == v
    ensures v.Times(Vec(k, k)) == Vec(k, k).Times(v)
  {
  }

  /** The dot product is symmetric, and a vector dotted with itself is its
      squared magnitude. */
  lemma DotProperties(v1: Vec, v2: Vec)
    ensures Dot(v1, v2) == Dot(v2, v1)
    ensures Dot(v1, v1) == v1.SquaredMagnitude()
    ensures SquaredDistance(v1, v2) == Dot(v1.Minus(v2), v1.Minus(v2))
  {
  }

  /** Squared distance does not depend on the order of its arguments, and
      it is the squared magnitude of the difference. */
  lemma SquaredDistanceSymmetric(p1: Vec, p2: Vec)
    ensures SquaredDistance(p1, p2) == SquaredDistance(p2, p1)
    ensures SquaredDistance(p1, p2) == p1.Minus(p2).SquaredMagnitude()
  {
  }

  /** A point is inside a box exactly when clamping each coordinate to the
      box's range leaves it unchanged. */
  lemma InsideBoxIsClampFixpoint(p: Vec, origin: Vec, size: Vec)
    ensures p.InsideBox(origin, size) <==>
              Clamp(p.x, origin.x, origin.x + size.x) == p.x &&
              Clamp(p.y, origin.y, origin.y + size.y) == p.y
  {
  }

  /** Clamping gives the point of an interval nearest to `val`: no point `q`
      of the interval is closer. */
  lemma ClampIsNearest(val: real, min: real, max: real, q: real)
    requires min <= q <= max
    ensures (Clamp(val, min, max) - val) * (Clamp(val, min, max) - val) <= (q - val) * (q - val)
  {
    SquareMonotone(Clamp(val, min, max) - val, q - val);
  }
}
