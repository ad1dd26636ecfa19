// Game/PlayerCharacter.cpp: the physical body a player steers.
module Characters {
  import opened Vectors

  /** A snapshot of a character's fields, as the game logic reads and writes them. */
  datatype Body = Body(location: Vector, radius: real, rotation: real,
                       speed: Vector, moveSpeed: real)
  {
    /** `RotateLeft( value )`: the heading decreases by `value` degrees. */
    function RotatedLeft(value: real): (b: Body)
      ensures b.rotation == rotation - value
      ensures b.(rotation := rotation) == this
    {
      this.(rotation := rotation - value)
    }

    /** `RotateRight( value )`: the heading increases by `value` degrees. */
    function RotatedRight(value: real): (b: Body)
      ensures b.rotation == rotation + value
      ensures b.(rotation := rotation) == this
    {
      this.(rotation := rotation + value)
    }

    /** `MoveForward( value )`: the location advances by `value` along the heading. */
    function MovedForward(geometry: Geometry, value: real): (b: Body)
      ensures b.location == location.Plus(geometry.forwardOf(rotation).Scaled(value))
      ensures b.(location := location) == this
    {
      this.(location := location.Plus(geometry.forwardOf(rotation).Scaled(value)))
    }
  }

  /** Turning left then right by the same amount restores the heading, and so the body. */
  lemma RotateRoundTrip(b: Body, value: real)
    ensures b.RotatedLeft(value).RotatedRight(value) == b
    ensures b.RotatedRight(value).RotatedLeft(value) == b
  {
  }

  /** Moving forward by zero leaves the body where it is. */
  lemma MoveByZero(geometry: Geometry, b: Body)
    ensures b.MovedForward(geometry, 0.0) == b
  {
    ScaledByZero(geometry.forwardOf(b.rotation));
    PlusZero(b.location);
  }

  /** Two forward moves without turning add up. */
  lemma MovesAdd(geometry: Geometry, b: Body, u: real, v: real)
    ensures b.MovedForward(geometry, u).MovedForward(geometry, v) == b.MovedForward(geometry, u + v)
  {
  }

  class PlayerCharacter {
    var location: Vector
    var radius: real
    var rotation: real
    /** Current velocity and the speed of forward movement; set and read by the controller
        (their declarations are in the character's header, not in this file). */
    var speed: Vector
    var moveSpeed: real
    /** `Vector(0, 1, 0).Rotated2D( rotation )`: trigonometry is a parameter. */
    const geometry: Geometry

    function Data(): (b: Body)
      reads this
      ensures b.location == location && b.radius == radius && b.rotation == rotation
      ensures b.speed == speed && b.moveSpeed == moveSpeed
    {
      Body(location, radius, rotation, speed, moveSpeed)
    }

    constructor (geometry: Geometry)
      ensures Data() == Body(Zero, 0.0, 0.0, Zero, 0.0) && this.geometry == geometry
    {
      location := Zero;
      radius := 0.0;
      rotation := 0.0;
      speed := Zero;
      moveSpeed := 0.0;
      this.geometry := geometry;
    }

    /** Overwrites every field with `b`. */
    method Store(b: Body)
      modifies this
      ensures Data() == b
    {
      location := b.location;
      radius := b.radius;
      rotation := b.rotation;
      speed := b.speed;
      moveSpeed := b.moveSpeed;
    }

    method RotateLeft(value: real)
      modifies this
      ensures Data() == old(Data()).RotatedLeft(value)
    {
      rotation := rotation - value;
    }

    method RotateRight(value: real)
      modifies this
      ensures Data() == old(Data()).RotatedRight(value)
    {
      rotation := rotation + value;
    }

    method MoveForward(value: real)
      modifies this
      ensures Data() == old(Data()).MovedForward(geometry, value)
    {
      location := location.Plus(GetForward().Scaled(value));
    }

    function GetLocation(): (v: Vector)
      reads this
      ensures v == Data().location
    {
      location
    }

    /** Setters return the character itself so calls can be chained. */
    method SetLocation(location: Vector) returns (self: PlayerCharacter)
      modifies this
      ensures self == this
      ensures Data() == old(Data()).(location := location)
    {
      this.location := location;
      self := this;
    }

    function GetRadius(): (r: real)
      reads this
      ensures r == Data().radius
    {
      radius
    }

    method SetRadius(radius: real) returns (self: PlayerCharacter)
      modifies this
      ensures self == this
      ensures Data() == old(Data()).(radius := radius)
    {
      this.radius := radius;
      self := this;
    }

    function GetRotation(): (r: real)
      reads this
      ensures r == Data().rotation
    {
      rotation
    }

    method SetRotation(rotation: real) returns (self: PlayerCharacter)
      modifies this
      ensures self == this
      ensures Data() == old(Data()).(rotation := rotation)
    {
      this.rotation := rotation;
      self := this;
    }

    /** The unit vector the character faces: the default forward (0, 1, 0) turned by
        the current rotation. */
    function GetForward(): (v: Vector)
      reads this
      ensures v == geometry.forwardOf(Data().rotation)
    {
      geometry.forwardOf(rotation)
    }
  }
}
