/**
 * Four-component wind vectors, as stored in the shader-facing buffers.
 * Components are exact reals; float rounding is not modelled.
 */
module WindVector {
  import opened RealArith

  datatype Vec4 = Vec4(x: real, y: real, z: real, w: real)

  /** The default (all-zero) vector that fresh buffers hold. */
  const Zero: Vec4 := Vec4(0.0, 0.0, 0.0, 0.0)

  /** The interpolation parameter, clamped to [0, 1] as the engine's Lerp does. */
  function Clamp01(t: real): (c: real)
    ensures 0.0 <= c <= 1.0
    ensures 0.0 <= t <= 1.0 ==> c == t
  {
    if t < 0.0 then 0.0 else if t > 1.0 then 1.0 else t
  }

  /** `a` stepped toward `b` by the fraction `c` of the way. */
  function Mix(a: real, b: real, c: real): (m: real)
  {
    a + (b - a) * c
  }

  /** A value lies between two endpoints, in whichever order they come. */
  predicate Between(a: real, b: real, v: real)
  {
    (a <= v <= b) || (b <= v <= a)
  }

  lemma MixBetween(a: real, b: real, c: real)
    requires 0.0 <= c <= 1.0
    ensures Between(a, b, Mix(a, b, c))
  {
    // The step taken is (b - a) * c; what is left is (b - a) * (1 - c).
    assert (b - a) - (b - a) * c == (b - a) * (1.0 - c);
    if a <= b {
      ProductNonNegative(b - a, c);
      ProductNonNegative(b - a, 1.0 - c);
    } else {
      ProductNonNegative(a - b, c);
      ProductNonNegative(a - b, 1.0 - c);
      assert (b - a) * c == -((a - b) * c);
      assert (b - a) * (1.0 - c) == -((a - b) * (1.0 - c));
    }
  }

  /**
   * Vector4.Lerp: component-wise linear interpolation from `a` to `b`,
   * with the parameter first clamped to [0, 1].
   */
  function Lerp(a: Vec4, b: Vec4, t: real): (r: Vec4)
    ensures t <= 0.0 ==> r == a
    ensures t >= 1.0 ==> r == b
    ensures a == b ==> r == a
    ensures Between(a.x, b.x, r.x) && Between(a.y, b.y, r.y)
    ensures Between(a.z, b.z, r.z) && Between(a.w, b.w, r.w)
  {
    var c := Clamp01(t);
    MixBetween(a.x, b.x, c);
    MixBetween(a.y, b.y, c);
    MixBetween(a.z, b.z, c);
    MixBetween(a.w, b.w, c);
    Vec4(Mix(a.x, b.x, c), Mix(a.y, b.y, c), Mix(a.z, b.z, c), Mix(a.w, b.w, c))
  }
}
