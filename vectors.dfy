/**
 * `Vector3` over the reals, and `Vector3.Lerp` as Unity documents it: the
 * interpolation factor is clamped to [0, 1] before it is used.
 */
module Vectors {

  datatype Vec3 = Vec3(x: real, y: real, z: real)

  function Add(a: Vec3, b: Vec3): Vec3 {
    Vec3(a.x + b.x, a.y + b.y, a.z + b.z)
  }

  function Sub(a: Vec3, b: Vec3): Vec3 {
    Vec3(a.x - b.x, a.y - b.y, a.z - b.z)
  }

  function Scale(a: Vec3, k: real): Vec3 {
    Vec3(a.x * k, a.y * k, a.z * k)
  }

  /** `Mathf.Clamp01` */
  function Clamp01(t: real): (c: real)
    ensures 0.0 <= c <= 1.0
    ensures 0.0 <= t <= 1.0 ==> c == t
    ensures t < 0.0 ==> c == 0.0
    ensures t > 1.0 ==> c == 1.0
  {
    if t < 0.0 then 0.0 else if t > 1.0 then 1.0 else t
  }

  /** `Vector3.Lerp(a, b, t)`: a factor of 0 or less keeps `a`, a factor of 1 or more lands on `b`. */
  function Lerp(a: Vec3, b: Vec3, t: real): (r: Vec3)
    ensures t <= 0.0 ==> r == a
    ensures t >= 1.0 ==> r == b
  {
    Add(a, Scale(Sub(b, a), Clamp01(t)))
  }

  /** What is left of the way to `b` after one step is the old gap scaled by 1 - clamp(t). */
  lemma LerpGap(a: Vec3, b: Vec3, t: real)
    ensures Sub(b, Lerp(a, b, t)) == Scale(Sub(b, a), 1.0 - Clamp01(t))
  {
    var c := Clamp01(t);
    GapComponent(a.x, b.x, c);
    GapComponent(a.y, b.y, c);
    GapComponent(a.z, b.z, c);
  }

  lemma GapComponent(a: real, b: real, c: real)
    ensures b - (a + (b - a) * c) == (b - a) * (1.0 - c)
  {
    var d := b - a;
    assert d * (1.0 - c) == d - d * c;
  }
}
