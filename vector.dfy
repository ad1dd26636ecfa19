// Game/Vector.h: a three-component point / velocity. Only the exact operations the
// modelled core uses are given bodies here; everything that needs a square root or
// trigonometry (Normalized, Rotated2D, GetLength) is a parameter (`Geometry`).
module Vectors {

  datatype Vector = Vector(x: real, y: real, z: real) {

    /** `operator+`: component-wise sum. */
    function Plus(v: Vector): Vector {
      Vector(x + v.x, y + v.y, z + v.z)
    }

    /** `operator*( scalar )`: every component multiplied by `k`. */
    function Scaled(k: real): Vector {
      Vector(x * k, y * k, z * k)
    }

    /** Unary minus. */
    function Negated(): Vector {
      Vector(-x, -y, -z)
    }

    /** The square of `GetLength()`; comparing it with the square of a threshold
        decides `GetLength() < threshold` without a square root. */
    function LengthSquared(): real {
      x * x + y * y + z * z
    }
  }

  /** `Vector::Zero()`. */
  const Zero := Vector(0.0, 0.0, 0.0)

  /** The floating-point geometry the core calls but that is not modelled:
      `forwardOf(rotation)` is `Vector(0, 1, 0).Rotated2D(rotation)` and
      `normalized(v)` is `v.Normalized()`. */
  datatype Geometry = Geometry(forwardOf: real -> Vector, normalized: Vector -> Vector)

  lemma ScaledByZero(v: Vector)
    ensures v.Scaled(0.0) == Zero
  {
  }

  lemma PlusZero(v: Vector)
    ensures v.Plus(Zero) == v
  {
  }
}
