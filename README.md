# CppVectorPhysics in Dafny

A model of the 2D physics helpers of `Physics.cpp`: the `pVector` type with
its operators and geometric queries, the free functions `SquaredDistance`,
`Clamp` and `Dot`, and the `Body` class — a circle or axis-aligned box with
a position, a size, a radius and a velocity — with its collision tests, its
move-with-rollback operations and its screen wrap.

Coordinates are exact `real` numbers: the `float` arithmetic of the original
is idealised, and `powf(v, 2)` is written `v * v`.

The project has three modules:

- `Vectors` (`vectors.dfy`): `pVector` as the datatype `Vec` with `Plus`,
  `Minus`, `Scale`, `Times` (the four operators), `SquaredMagnitude` and
  `InsideBox`; the free functions `SquaredDistance`, `Clamp` and `Dot`.
- `Collision` (`collision.dfy`): the tag `BodyType` (`Box`, `Circle`,
  `None`) and the collision tests. They only read the fields of the bodies
  involved, so they are functions of `Shape`, the value made of a body's tag,
  position, radius and size. `BoxCollidesBox` is the overload taking a body
  and `BoxCollidesRect` the one taking a position and a size.
- `Bodies` (`bodies.dfy`): the class `Body`, whose move and wrap methods
  update its `pos` field in place and whose `AsShape()` and `ShapeAt(p)` give
  the value the collision tests read. The static `SCREEN_WIDTH`,
  `SCREEN_HEIGHT` and `align_collisions` become the fields of a `Settings`
  object. `Initialize` writes that object, and `AutoMove`,
  `AutoMoveAndWrap` and `Wrap` take it as a parameter.

The list of bodies a move scans is a `seq<Body>` of references. Skipping
self is reference equality. `Body.CollidesAt(p, bodies)` states the scan's
question: does the body, placed at `p`, collide with some body of the list
other than itself?

Things the code does that the model keeps as written:

- The collision tests use a circle's `pos` as its centre, although the
  field's comment calls it the top-left corner. The circle-box test builds
  the circle's bounding square at `pos - (radius, radius)` with extent
  `size`.
- The circle test compares `Distance(p, q) < r1 + r2`. A distance is never
  negative, so this is exactly `r1 + r2 > 0 && SquaredDistance(p, q) <
  (r1 + r2)²`. `CircleCollidesCircleByDistance` proves the two agree for any
  exact square root.
- A body tagged `None` takes the mixed-pair branch of `CheckCollision`. For
  a circle and an untagged body the two directions can disagree
  (`CheckCollisionCircleNoneAsymmetric`). For every other pair of tags the
  test is symmetric.
- A box of zero extent is not ignored. One lying strictly inside another
  box collides with it (`ZeroSizeBoxCanCollide`).
- `MoveAndAlign` is marked incomplete. Its body is the same full rollback as
  `Move`'s, so the model's `MoveAndAlign` calls `Move`.
- `Wrap` resets a coordinate to 0 or to the bound. It does not add or
  subtract the overflow. The `int` bounds are compared with the `float`
  position after conversion, written `bound as real`.

## Model

| member | source | states |
|---|---|---|
| Vectors.ZeroProperties | Physics.cpp:14-17 | the default vector `(0, 0)` has squared magnitude 0, is any vector scaled by 0, any vector minus itself, and any vector's component-wise product with it |
| Vectors.PlusProperties | Physics.cpp:25-28 | `+` is associative and the default vector is its identity on both sides |
| Vectors.PlusMinusInverse | Physics.cpp:25-33 | adding and then subtracting a vector gives back the original, in either order; `+` is commutative; a vector minus itself is zero |
| Vectors.ScaleDistributes | Physics.cpp:35-38 | scaling by a value distributes over `+`, and scaling by `k` then `m` is scaling by `k * m` |
| Vectors.TimesProperties | Physics.cpp:40-43 | the component-wise product is commutative, distributes over `+`, and has `(1, 1)` as identity |
| Vectors.ScaleProperties | Physics.cpp:35-43 | scaling by `k` multiplies the squared magnitude by `k²`; scaling equals the component-wise product with `(k, k)`, in either order; scaling by 1 changes nothing |
| Vectors.Vec.SquaredMagnitude | Physics.cpp:50-54 | the squared magnitude is never negative |
| Vectors.Vec.InsideBox | Physics.cpp:73-76 | a point is inside exactly when `origin.x <= x <= origin.x + size.x` and `origin.y <= y <= origin.y + size.y`: all four edges belong to the box |
| Vectors.InsideBoxIsClampFixpoint | Physics.cpp:74-76 | a point is inside a box exactly when clamping each coordinate to the box's range leaves it unchanged |
| Vectors.SquaredDistance | Physics.cpp:90-92 | the squared distance is never negative |
| Vectors.SquaredDistanceSymmetric | Physics.cpp:90-92 | the squared distance does not depend on the order of the two points, and it is the squared magnitude of their difference |
| Vectors.Clamp | Physics.cpp:94-100 | the result is `val`, `min` or `max`; below `min` it is `min`; above `max`, and not below `min`, it is `max`; with `min <= max` it lies in `[min, max]`; a value in range is unchanged; `val` is returned exactly when neither bound test fires |
| Vectors.ClampIsNearest | Physics.cpp:94-100 | the clamped value is the point of `[min, max]` nearest to `val` |
| Vectors.DotProperties | Physics.cpp:102-104 | the dot product is symmetric; a vector dotted with itself is its squared magnitude; the squared distance is the difference dotted with itself |
| Vectors.DotLinear | Physics.cpp:102-104 | the dot product is linear: it distributes over `+` and takes a scale factor out |
| Bodies.Settings.constructor | Physics.cpp:135-138 | before initialisation the screen bounds are 0 and alignment is off, as for zero-initialised statics |
| Bodies.Settings.Initialize | Physics.cpp:140-145 | sets both screen bounds to the given values and switches alignment off |
| Bodies.Body.BoxBody | Physics.cpp:147-152 | a box body with the given position and size, at rest |
| Bodies.Body.CircleBody | Physics.cpp:154-160 | a circle body with the given position and radius, at rest, whose size is twice the radius on both axes |
| Bodies.Body.AutoMoveAndWrap | Physics.cpp:162-169 | the position becomes the wrap of the outcome of moving by the velocity: the old position if that move collides, the moved one otherwise |
| Bodies.Body.AutoMove | Physics.cpp:171-177 | whichever move the flag selects, the body moves by its velocity unless that collides with another listed body, and then stays; a collision-free body stays collision-free |
| Bodies.Body.Move | Physics.cpp:179-193 | the position becomes old `pos + Motion` when no other listed body collides there, and stays old `pos` when one does; only `pos` changes; a collision-free body stays collision-free |
| Bodies.Body.MoveAndAlign | Physics.cpp:195-210 | the same all-or-nothing outcome as `Move` |
| Bodies.Body.Wrap | Physics.cpp:212-223 | each coordinate is wrapped against its own screen bound; with non-negative bounds the body ends inside the screen, edges included |
| Bodies.WrapCoordinate | Physics.cpp:213-223 | a coordinate in `[0, bound]` is kept, one above the bound becomes 0, one below 0, and not above the bound, becomes the bound; with a non-negative bound the result lies in `[0, bound]` |
| Bodies.WrapCoordinateIdempotent | Physics.cpp:213-223 | wrapping a second time changes nothing, whatever the bound |
| Collision.CheckCollisionDispatch | Physics.cpp:225-239 | two circles use the circle test; two equal non-circle tags use the box test; different tags use the circle-box test of the `Box` side when the caller is a box, and of the other body, with the caller as the circle, otherwise |
| Collision.CheckCollisionBoxCircle | Physics.cpp:226-239 | for a box of non-negative size and a round circle, the collision test gives the same answer from either side, and it holds exactly when some point of the box, edges included, is closer to the centre than the radius |
| Collision.CheckCollisionSymmetric | Physics.cpp:226-239 | the collision test gives the same answer from either side for every pair of tags except a circle with an untagged body |
| Collision.CheckCollisionCircleNoneAsymmetric | Physics.cpp:233-237 | for a circle and an untagged body the two directions can disagree |
| Collision.Shape.CircleCollidesCircle | Physics.cpp:241-244 | with non-negative radii, two circles collide exactly when the squared distance of their centres is below `(r1 + r2)²` |
| Collision.CircleCollidesCircleSymmetric | Physics.cpp:241-244 | the circle test gives the same answer whichever circle calls it |
| Collision.CircleCollidesCircleByDistance | Physics.cpp:242-244 | the circle test holds exactly when the centre distance (any non-negative root of the squared distance) is below `r1 + r2`; it is symmetric |
| Collision.Shape.CircleCollidesBox | Physics.cpp:246-252 | a true result implies that the circle's bounding square strictly overlaps the box |
| Collision.CircleCollidesBoxSound | Physics.cpp:247-270 | for a box of non-negative size and a circle of positive radius as the circle constructor builds it, when the test holds, the point of the box nearest to the circle's centre is closer than the radius |
| Collision.CircleCollidesBoxComplete | Physics.cpp:247-270 | for a box of non-negative size and a circle of positive radius as the circle constructor builds it, when the nearest point of the box is closer than the radius, the test holds |
| Collision.CircleCollidesBoxExact | Physics.cpp:247-270 | for a box of non-negative size and a circle of positive radius as the circle constructor builds it, the test holds exactly when the nearest point of the box is closer to the centre than the radius |
| Collision.CircleCollidesBoxGeometric | Physics.cpp:247-270 | under the same conditions, the test holds exactly when some point of the box, edges included, is closer to the centre than the radius |
| Collision.Shape.BoxCollidesBox | Physics.cpp:272-278 | the body overload agrees with the position-and-size overload given the other body's `pos` and `size` |
| Collision.BoxCollidesBoxSymmetric | Physics.cpp:272-286 | both box overloads are symmetric in the two rectangles |
| Collision.BoxTouchingEdgeDoesNotCollide | Physics.cpp:273-278 | boxes that only share an edge do not collide |
| Collision.BoxCollidesIffSharedInterior | Physics.cpp:273-278 | for boxes of positive size, the box test holds exactly when some point lies strictly inside both |
| Collision.BoxCollidesRectIffSharedInterior | Physics.cpp:280-286 | for a box and a rectangle of positive size given by position and size, the test holds exactly when some point lies strictly inside both |
| Collision.ZeroSizeBoxCanCollide | Physics.cpp:273-278 | a box of zero extent strictly inside another box collides with it |

## Left out

- `Magnitude`, `Normalize`, `Normalized`, `Distance` and
  `NearestPointOnFiniteLine` (Physics.cpp:46-71, 86-88, 106-116) are left out
  because they need a square root. The one use of `Distance` in the core,
  the circle test, is modelled exactly through squared distances.
- The commented-out `InsideBox` overload taking an `SDL_Rect` is not
  modelled. It adapts a rendering library's type.
- Floating-point rounding, NaN and infinities are not modelled. Positions,
  sizes and radii are exact reals.
- The screen bounds are unbounded integers. The 32-bit width of `int` and
  the rounding of its conversion to `float` are not modelled.
- The box constructor leaves `radius` uninitialised. The model's box
  constructor leaves it unconstrained and says nothing about it.
- Process-wide statics are not modelled as globals. They become a
  `Settings` object passed to the operations that read them. There is no
  concurrency.
- `std::vector` copies, raw pointers and the `for each` loop are not
  modelled. The list is a sequence of references, scanned in order with
  the same `continue` and `break`.
- The incremental back-off that `MoveAndAlign`'s comment describes is not
  modelled. The source does not implement it either.
