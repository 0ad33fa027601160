/**
 * Three-component vectors over the reals, standing in for `glm::vec3`.
 * Floating-point rounding is not modelled: every operation is exact.
 */
module Vectors {

  datatype Vec3 = Vec3(x: real, y: real, z: real)

  const Zero: Vec3 := Vec3(0.0, 0.0, 0.0)

  /** `glm::vec3(s)`: the same scalar in every component. */
  function Splat(s: real): Vec3 {
    Vec3(s, s, s)
  }

  function Add(a: Vec3, b: Vec3): Vec3 {
    Vec3(a.x + b.x, a.y + b.y, a.z + b.z)
  }

  function Neg(a: Vec3): Vec3 {
    Vec3(-a.x, -a.y, -a.z)
  }

  /** Vector times scalar. */
  function Scale(a: Vec3, s: real): Vec3 {
    Vec3(a.x * s, a.y * s, a.z * s)
  }

  /** Scaling by zero gives the zero vector. */
  lemma ScaleZero(a: Vec3)
    ensures Scale(a, 0.0) == Zero
  {
  }

  /** `p + v * dt`: a quantity advanced at rate `v` for a time `dt`. */
  function Advance(p: Vec3, v: Vec3, dt: real): Vec3 {
    Add(p, Scale(v, dt))
  }

  /** Advancing at rate zero leaves a quantity where it is. */
  lemma AdvanceAtRateZero(p: Vec3, dt: real)
    ensures Advance(p, Zero, dt) == p
  {
    assert 0.0 * dt == 0.0;
  }

  /** Advancing for `a` and then for `b` at the same rate is advancing for `a + b`. */
  lemma AdvanceAdditive(p: Vec3, v: Vec3, a: real, b: real)
    ensures Advance(Advance(p, v, a), v, b) == Advance(p, v, a + b)
  {
    assert v.x * a + v.x * b == v.x * (a + b);
    assert v.y * a + v.y * b == v.y * (a + b);
    assert v.z * a + v.z * b == v.z * (a + b);
  }

  /**
   * Linear interpolation with the parameter in the middle, as the camera
   * header writes it: `a * (1 - t) + b * t`.
   */
  function Lerp(a: real, t: real, b: real): (r: real)
    ensures t == 0.0 ==> r == a
    ensures t == 1.0 ==> r == b
    ensures r == a + t * (b - a)
    ensures a == b ==> r == a
  {
    a * (1.0 - t) + b * t
  }

  /** `Lerp` applied to each component. */
  function Lerp3(a: Vec3, t: real, b: Vec3): (r: Vec3)
    ensures r.x == Lerp(a.x, t, b.x) && r.y == Lerp(a.y, t, b.y) && r.z == Lerp(a.z, t, b.z)
    ensures t == 0.0 ==> r == a
    ensures t == 1.0 ==> r == b
  {
    Vec3(Lerp(a.x, t, b.x), Lerp(a.y, t, b.y), Lerp(a.z, t, b.z))
  }

  /** Componentwise product, glm's `vec3 * vec3`. */
  function Mul(a: Vec3, b: Vec3): Vec3 {
    Vec3(a.x * b.x, a.y * b.y, a.z * b.z)
  }

  /** Vector divided by a scalar, glm's `vec3 / float`. */
  function Div(a: Vec3, s: real): Vec3
    requires s != 0.0
  {
    Vec3(a.x / s, a.y / s, a.z / s)
  }

  /** The C++ truth value of a vector test `v.x || v.y || v.z`. */
  predicate NonZero(a: Vec3) {
    a.x != 0.0 || a.y != 0.0 || a.z != 0.0
  }
}
