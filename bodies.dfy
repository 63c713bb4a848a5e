/**
  Bodies that move: the screen settings every body reads, and the class of
  bodies whose position the move and wrap operations update in place.
 */
module Bodies {
  import opened Vectors
  import opened Collision

  /** The settings shared by all bodies: the screen bounds that wrapping uses
      and the flag that chooses the aligning move. */
  class Settings {
    var screenWidth: int
    var screenHeight: int
    var alignCollisions: bool

    /** Settings before initialisation: like static storage, all zero. */
    constructor ()
      ensures screenWidth == 0 && screenHeight == 0 && !alignCollisions
    {
      screenWidth, screenHeight, alignCollisions := 0, 0, false;
    }

    /** Sets the screen bounds and switches the aligning move off. */
    method Initialize(screenWidth: int, screenHeight: int)
      modifies this
      ensures this.screenWidth == screenWidth && this.screenHeight == screenHeight
      ensures !alignCollisions
    {
      this.screenWidth := screenWidth;
      this.screenHeight := screenHeight;
      alignCollisions := false;
    }
  }

  /** Screen wrap of one coordinate against the bound of its axis: a
      coordinate past the bound is reset to zero, one below zero to the
      bound, and one on the screen is kept. */
  function WrapCoordinate(c: real, bound: int): (r: real)
    ensures 0.0 <= c <= bound as real ==> r == c
    ensures c > bound as real ==> r == 0.0
    ensures c < 0.0 && c <= bound as real ==> r == bound as real
    ensures bound >= 0 ==> 0.0 <= r <= bound as real
  {
    if c > bound as real then 0.0
    else if c < 0.0 then bound as real
    else c
  }

  /** Wrapping a coordinate a second time changes nothing. */
  lemma WrapCoordinateIdempotent(c: real, bound: int)
    ensures WrapCoordinate(WrapCoordinate(c, bound), bound) == WrapCoordinate(c, bound)
  {
  }

  /** A circle or box that moves by its velocity or by a given displacement
      and is kept from overlapping the other bodies of a list. */
  class Body {
    var kind: BodyType
    /** Top-left corner of a box; the collision tests take it as the centre
        of a circle. */
    var pos: Vec
    /** Radius of a circle; a box constructor leaves it unset. */
    var radius: real
    /** Extent of a box, or the diameter of a circle on both axes. */
    var size: Vec
    /** The displacement the automatic moves apply. */
    var velocity: Vec

    /** A box at `pos` with extent `size`, at rest. */
    constructor BoxBody(pos: Vec, size: Vec)
      ensures kind == Box && this.pos == pos && this.size == size && velocity == Zero
    {
      kind := Box;
      this.pos := pos;
      this.size := size;
      velocity := Zero;
    }

    /** A circle at `pos` with the given radius, at rest; its extent is the
        diameter on both axes. */
    constructor CircleBody(pos: Vec, radius: real)
      ensures kind == Circle && this.pos == pos && this.radius == radius && velocity == Zero
      ensures size == Vec(radius * 2.0, radius * 2.0)
      ensures radius > 0.0 ==> RoundCircle(AsShape())
    {
      kind := Circle;
      this.pos := pos;
      this.radius := radius;
      size := Vec(radius * 2.0, radius * 2.0);
      velocity := Zero;
    }

    /** The fields the collision tests read, with the position `p`. */
    function ShapeAt(p: Vec): Shape
      reads this
    {
      Shape(kind, p, radius, size)
    }

    /** The fields the collision tests read, as they are now. */
    function AsShape(): Shape
      reads this
    {
      ShapeAt(pos)
    }

    /** Whether this body, placed at `p`, collides with a body of the list
        other than itself. */
    ghost predicate CollidesAt(p: Vec, allBodies: seq<Body>)
      reads this, allBodies
    {
      exists i :: 0 <= i < |allBodies| && allBodies[i] != this
                  && ShapeAt(p).CheckCollision(allBodies[i].AsShape())
    }

    /** Moves by `motion` unless the body would then collide with another
        body of the list, in which case it stays where it was. A body that
        collided with none keeps colliding with none. */
    method Move(motion: Vec, allBodies: seq<Body>)
      modifies this`pos
      ensures if old(CollidesAt(pos.Plus(motion), allBodies)) then pos == old(pos)
              else pos == old(pos).Plus(motion)
      ensures !old(CollidesAt(pos, allBodies)) ==> !CollidesAt(pos, allBodies)
    {
      var origin := pos;
      pos := pos.Plus(motion);
      var i := 0;
      while i < |allBodies|
        invariant 0 <= i <= |allBodies|
        invariant pos == origin.Plus(motion)
        invariant forall j :: 0 <= j < i && allBodies[j] != this ==>
                    !AsShape().CheckCollision(allBodies[j].AsShape())
      {
        var other := allBodies[i];
        if other == this {
          i := i + 1;
          continue;
        }
        if AsShape().CheckCollision(other.AsShape()) {
          pos := origin;
          break;
        }
        i := i + 1;
      }
    }

    /** Meant to move and then back off until the body just touches what it
        hit; it rolls back in full instead, exactly as `Move` does. */
    method MoveAndAlign(motion: Vec, allBodies: seq<Body>)
      modifies this`pos
      ensures if old(CollidesAt(pos.Plus(motion), allBodies)) then pos == old(pos)
              else pos == old(pos).Plus(motion)
      ensures !old(CollidesAt(pos, allBodies)) ==> !CollidesAt(pos, allBodies)
    {
      Move(motion, allBodies);
    }

    /** Moves by the body's own velocity, with the aligning move when the
        settings ask for it. */
    method AutoMove(settings: Settings, allBodies: seq<Body>)
      modifies this`pos
      ensures if old(CollidesAt(pos.Plus(velocity), allBodies)) then pos == old(pos)
              else pos == old(pos).Plus(velocity)
      ensures !old(CollidesAt(pos, allBodies)) ==> !CollidesAt(pos, allBodies)
    {
      if settings.alignCollisions {
        MoveAndAlign(velocity, allBodies);
      } else {
        Move(velocity, allBodies);
      }
    }

    /** Moves like `AutoMove` and then wraps the position into the screen. */
    method AutoMoveAndWrap(settings: Settings, allBodies: seq<Body>)
      modifies this`pos
      ensures var moved := if old(CollidesAt(pos.Plus(velocity), allBodies)) then old(pos)
                           else old(pos).Plus(velocity);
              pos == Vec(WrapCoordinate(moved.x, settings.screenWidth),
                         WrapCoordinate(moved.y, settings.screenHeight))
    {
      AutoMove(settings, allBodies);
      Wrap(settings);
    }

    /** Teleports a body that left the screen to the opposite edge, each
        axis on its own; with non-negative bounds the body ends on the
        screen, edges included. */
    method Wrap(settings: Settings)
      modifies this`pos
      ensures pos == Vec(WrapCoordinate(old(pos).x, settings.screenWidth),
                         WrapCoordinate(old(pos).y, settings.screenHeight))
      ensures settings.screenWidth >= 0 && settings.screenHeight >= 0 ==>
                pos.InsideBox(Zero, Vec(settings.screenWidth as real, settings.screenHeight as real))
    {
      if pos.x > settings.screenWidth as real {
        pos := pos.(x := 0.0);
      } else if pos.x < 0.0 {
        pos := pos.(x := settings.screenWidth as real);
      }

      if pos.y > settings.screenHeight as real {
        pos := pos.(y := 0.0);
      } else if pos.y < 0.0 {
        pos := pos.(y := settings.screenHeight as real);
      }
    }
  }
}
