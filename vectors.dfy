/**
 * Three-component vectors over the reals, standing in for UnityEngine.Vector3, and the
 * scalar helpers of UnityEngine.Mathf that the reconciliation engine calls. Float32
 * arithmetic is idealised as exact real arithmetic.
 */
module Vectors {

  datatype Vec3 = Vec3(x: real, y: real, z: real)

  /** Vector3.zero */
  const Zero: Vec3 := Vec3(0.0, 0.0, 0.0)

  function Add(a: Vec3, b: Vec3): Vec3 {
    Vec3(a.x + b.x, a.y + b.y, a.z + b.z)
  }

  function Sub(a: Vec3, b: Vec3): Vec3 {
    Vec3(a.x - b.x, a.y - b.y, a.z - b.z)
  }

  function Neg(a: Vec3): Vec3 {
    Vec3(-a.x, -a.y, -a.z)
  }

  /** `k * v` and `v * k` */
  function Scale(k: real, v: Vec3): Vec3 {
    Vec3(k * v.x, k * v.y, k * v.z)
  }

  /** `v / d` */
  function Div(v: Vec3, d: real): Vec3
    requires d != 0.0
  {
    Vec3(v.x / d, v.y / d, v.z / d)
  }

  /** Division by `d` undoes scaling by `d`: `d * (v / d) == v`. */
  lemma ScaleOfDiv(v: Vec3, d: real)
    requires d != 0.0
    ensures Scale(d, Div(v, d)) == v
  {
  }

  /** Dividing a multiple of `v` by its factor gives back `v`. */
  lemma DivOfScale(k: real, v: Vec3)
    requires k != 0.0
    ensures Div(Scale(k, v), k) == v
  {
  }

  /** Vector3.sqrMagnitude */
  function SqrMagnitude(v: Vec3): real {
    v.x * v.x + v.y * v.y + v.z * v.z
  }

  /** Mathf.Min */
  function Min(a: real, b: real): (r: real)
    ensures r <= a && r <= b
    ensures r == a || r == b
  {
    if a < b then a else b
  }

  /** Mathf.Clamp01: the identity on [0, 1], and the nearer end outside it. */
  function Clamp01(t: real): (r: real)
    ensures 0.0 <= r <= 1.0
    ensures 0.0 <= t <= 1.0 ==> r == t
    ensures t < 0.0 ==> r == 0.0
    ensures t > 1.0 ==> r == 1.0
  {
    if t < 0.0 then 0.0 else if t > 1.0 then 1.0 else t
  }

  /**
   * Mathf.InverseLerp: where `v` lies between `a` and `b`, as a fraction clamped to
   * [0, 1]; zero when the two ends coincide.
   */
  function InverseLerp(a: real, b: real, v: real): (r: real)
    ensures 0.0 <= r <= 1.0
    ensures a == b ==> r == 0.0
  {
    if a != b then Clamp01((v - a) / (b - a)) else 0.0
  }

  /**
   * For increasing ends, InverseLerp is 0 up to `a`, 1 from `b` on, and in between the
   * fraction `r` with `a + r * (b - a) == v`.
   */
  lemma InverseLerpFacts(a: real, b: real, v: real)
    requires a < b
    ensures v <= a ==> InverseLerp(a, b, v) == 0.0
    ensures b <= v ==> InverseLerp(a, b, v) == 1.0
    ensures a <= v <= b ==> a + InverseLerp(a, b, v) * (b - a) == v
  {
    FractionFacts(a, b, v);
  }

  /** Vector3.Lerp: the point a fraction `t` (clamped to [0, 1]) of the way from `a` to `b`. */
  function Lerp(a: Vec3, b: Vec3, t: real): (r: Vec3)
    ensures t <= 0.0 ==> r == a
    ensures t >= 1.0 ==> r == b
  {
    Add(a, Scale(Clamp01(t), Sub(b, a)))
  }

  /** Each coordinate of a Lerp lies between the corresponding coordinates of its ends. */
  lemma LerpBetween(a: Vec3, b: Vec3, t: real)
    ensures Between(a.x, b.x, Lerp(a, b, t).x)
    ensures Between(a.y, b.y, Lerp(a, b, t).y)
    ensures Between(a.z, b.z, Lerp(a, b, t).z)
  {
  }

  /** `v` lies in the closed interval spanned by `lo` and `hi`, in either order. */
  predicate Between(lo: real, hi: real, v: real) {
    (lo <= v <= hi) || (hi <= v <= lo)
  }

  /** A product of two positive numbers is positive. */
  lemma MulPos(x: real, y: real)
    requires x > 0.0 && y > 0.0
    ensures x * y > 0.0
  {
  }

  /** A product of two non-negative numbers is non-negative. */
  lemma MulNonNeg(x: real, y: real)
    requires x >= 0.0 && y >= 0.0
    ensures x * y >= 0.0
  {
  }

  /** On non-negative numbers, comparing squares is comparing the numbers. */
  lemma SquaresCompare(e: real, d: real)
    requires e >= 0.0 && d >= 0.0
    ensures e * e > d * d <==> e > d
  {
    assert e * e - d * d == (e - d) * (e + d);
    if e > d {
      MulPos(e - d, e + d);
    } else {
      MulNonNeg(d - e, e + d);
      assert (d - e) * (e + d) == -((e - d) * (e + d));
    }
  }

  /** The normalised position of `v` between distinct ends `a` and `b`, before clamping. */
  lemma FractionFacts(a: real, b: real, v: real)
    requires a != b
    ensures a + ((v - a) / (b - a)) * (b - a) == v
    ensures a < b && v <= a ==> (v - a) / (b - a) <= 0.0
    ensures a < b && b <= v ==> (v - a) / (b - a) >= 1.0
    ensures a < b && a <= v <= b ==> 0.0 <= (v - a) / (b - a) <= 1.0
  {
  }
}
