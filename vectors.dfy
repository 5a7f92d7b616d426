/**
 * Three-dimensional vectors over the reals, and the vector primitives the bot
 * relies on. Component-wise arithmetic and the dot product are exact; the
 * primitives that rest on square roots and arc cosines (magnitude, normalize,
 * angle) are supplied by the caller as a `Geometry`.
 */
module Vectors {

  datatype Vec = Vec(x: real, y: real, z: real)

  function Add(a: Vec, b: Vec): Vec {
    Vec(a.x + b.x, a.y + b.y, a.z + b.z)
  }

  function Sub(a: Vec, b: Vec): Vec {
    Vec(a.x - b.x, a.y - b.y, a.z - b.z)
  }

  function Scale(a: Vec, k: real): Vec {
    Vec(a.x * k, a.y * k, a.z * k)
  }

  function Dot(a: Vec, b: Vec): real {
    a.x * b.x + a.y * b.y + a.z * b.z
  }

  /**
   * The vector operations that are not exact arithmetic: the length of a
   * vector, the unit vector in its direction, and the angle in radians
   * between two vectors.
   */
  datatype Geometry = Geometry(
    magnitude: Vec -> real,
    normalize: Vec -> Vec,
    angle: (Vec, Vec) -> real)

  function Abs(r: real): (a: real)
    ensures a >= 0.0
    ensures a == r || a == -r
  {
    if r < 0.0 then -r else r
  }

  function Min(a: real, b: real): (m: real)
    ensures m <= a && m <= b
    ensures m == a || m == b
  {
    if b < a then b else a
  }

  /** Clamps `x` into `[low, high]`. */
  function Cap(x: real, low: real, high: real): (r: real)
    ensures low <= high ==> low <= r <= high
    ensures low <= x <= high ==> r == x
    ensures x < low ==> r == low
    ensures low <= high < x ==> r == high
  {
    if x < low then low else if x > high then high else x
  }
}
