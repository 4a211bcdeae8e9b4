/**
 * The position resolver: picks a strategy by how many snapshots the pruned history holds
 * (Catmull-Rom spline, linear interpolation, or extrapolation) and computes the target
 * position for the interpolation time. Everything here is a pure function; the velocity
 * sample the interpolating branches record is given by ResolvedVelocities.
 */
module Resolver {
  import opened Vectors
  import opened Configuration
  import opened SnapshotBuffer
  import opened VelocityEstimator

  /**
   * The uniform Catmull-Rom spline through p1 (at t = 0) and p2 (at t = 1), with p0 and
   * p3 shaping the tangents:
   * 0.5 * (2 p1 + (-p0 + p2) t + (2 p0 - 5 p1 + 4 p2 - p3) t^2 + (-p0 + 3 p1 - 3 p2 + p3) t^3).
   */
  function CatmullRom(p0: Vec3, p1: Vec3, p2: Vec3, p3: Vec3, t: real): Vec3 {
    var c1 := Add(Neg(p0), p2);
    var c2 := Sub(Add(Sub(Scale(2.0, p0), Scale(5.0, p1)), Scale(4.0, p2)), p3);
    var c3 := Add(Sub(Add(Neg(p0), Scale(3.0, p1)), Scale(3.0, p2)), p3);
    Scale(0.5, Add(Add(Add(Scale(2.0, p1), Scale(t, c1)), Scale(Power(t, 2), c2)), Scale(Power(t, 3), c3)))
  }

  /** `t` to the `n`th power. */
  function Power(t: real, n: nat): real {
    if n == 0 then 1.0 else t * Power(t, n - 1)
  }

  /** The spline starts exactly at its second control point. */
  lemma CatmullRomAtZero(p0: Vec3, p1: Vec3, p2: Vec3, p3: Vec3)
    ensures CatmullRom(p0, p1, p2, p3, 0.0) == p1
  {
  }

  /** The spline ends exactly at its third control point. */
  lemma CatmullRomAtOne(p0: Vec3, p1: Vec3, p2: Vec3, p3: Vec3)
    ensures CatmullRom(p0, p1, p2, p3, 1.0) == p2
  {
  }

  /**
   * On four evenly spaced collinear control points `a + k d` the spline is the straight
   * segment from p1 to p2: `p1 + t d`.
   */
  lemma CatmullRomOnUniformLine(a: Vec3, d: Vec3, t: real)
    ensures CatmullRom(a, Add(a, d), Add(a, Scale(2.0, d)), Add(a, Scale(3.0, d)), t)
            == Add(Add(a, d), Scale(t, d))
  {
    UniformLineCoordinate(a.x, d.x, t, Power(t, 2), Power(t, 3));
    UniformLineCoordinate(a.y, d.y, t, Power(t, 2), Power(t, 3));
    UniformLineCoordinate(a.z, d.z, t, Power(t, 2), Power(t, 3));
  }

  lemma UniformLineCoordinate(a: real, d: real, t: real, t2: real, t3: real)
    ensures 0.5 * (2.0 * (a + d) + t * (-a + (a + 2.0 * d))
                   + t2 * (2.0 * a - 5.0 * (a + d) + 4.0 * (a + 2.0 * d) - (a + 3.0 * d))
                   + t3 * (-a + 3.0 * (a + d) - 3.0 * (a + 2.0 * d) + (a + 3.0 * d)))
            == (a + d) + t * d
  {
  }

  /** InterpolateUsingCatmullRom's value: the spline over s[0..3], parametrised between s[1] and s[2]. */
  function CatmullRomTarget(s: seq<TransformState>, t: real): Vec3
    requires |s| >= 4
  {
    CatmullRom(s[0].position, s[1].position, s[2].position, s[3].position,
               InverseLerp(s[1].timestamp, s[2].timestamp, t))
  }

  /** InterpolateLinearly's value: the lerp between the two oldest snapshots. */
  function LinearTarget(s: seq<TransformState>, t: real): Vec3
    requires |s| >= 2
  {
    Lerp(s[0].position, s[1].position, InverseLerp(s[0].timestamp, s[1].timestamp, t))
  }

  /**
   * ExtrapolateFromLastState's value: project `last` along the average velocity for the
   * time elapsed since it, capped at the interpolation back time, scaled by the multiplier.
   */
  function ExtrapolatedTarget(last: TransformState, averageVelocity: Vec3, t: real,
                              cfg: Settings): Vec3
  {
    var delta := Min(cfg.interpolationBackTime, t - last.timestamp);
    Add(last.position, Scale(cfg.extrapolationMultiplier, Scale(delta, averageVelocity)))
  }

  /** ComputeTargetPosition's value, by how many snapshots the history holds. */
  function ResolvedTarget(s: seq<TransformState>, t: real, averageVelocity: Vec3,
                          current: Vec3, deltaTime: real, cfg: Settings): Vec3
  {
    if |s| >= 4 then CatmullRomTarget(s, t)
    else if |s| >= 2 then LinearTarget(s, t)
    else if |s| == 1 then ExtrapolatedTarget(s[0], averageVelocity, t, cfg)
    else Add(current, Scale(cfg.extrapolationMultiplier, Scale(deltaTime, averageVelocity)))
  }

  /**
   * The velocity buffer after ComputeTargetPosition: the spline branch samples (s[1], s[2]),
   * the linear branch (s[0], s[1]), and the extrapolating branches record nothing.
   */
  function ResolvedVelocities(s: seq<TransformState>, buffer: seq<Vec3>, capacity: nat): (r: seq<Vec3>)
    ensures |buffer| <= capacity ==> |r| <= capacity
    ensures |s| <= 1 ==> r == buffer
  {
    if |s| >= 4 then WithSample(buffer, s[1], s[2], capacity)
    else if |s| >= 2 then WithSample(buffer, s[0], s[1], capacity)
    else buffer
  }

  /**
   * Linear interpolation between snapshots stamped t0 < t1 gives exactly the older
   * position at (and before) t0 and exactly the newer one at (and after) t1.
   */
  lemma LinearTargetAtEnds(s: seq<TransformState>, t: real)
    requires |s| >= 2 && s[0].timestamp < s[1].timestamp
    ensures t <= s[0].timestamp ==> LinearTarget(s, t) == s[0].position
    ensures t >= s[1].timestamp ==> LinearTarget(s, t) == s[1].position
  {
    InverseLerpFacts(s[0].timestamp, s[1].timestamp, t);
  }

  /** Two snapshots with the same stamp give the older position whatever the time. */
  lemma LinearTargetSameStamp(s: seq<TransformState>, t: real)
    requires |s| >= 2 && s[0].timestamp == s[1].timestamp
    ensures LinearTarget(s, t) == s[0].position
  {
  }

  /**
   * Within the bracket [t0, t1] the linear target is the point that lies the same fraction
   * of the way from p0 to p1 as t lies from t0 to t1.
   */
  lemma LinearTargetProportional(s: seq<TransformState>, t: real)
    requires |s| >= 2 && s[0].timestamp < s[1].timestamp
    requires s[0].timestamp <= t <= s[1].timestamp
    ensures var u := (t - s[0].timestamp) / (s[1].timestamp - s[0].timestamp);
            LinearTarget(s, t) == Add(s[0].position, Scale(u, Sub(s[1].position, s[0].position)))
  {
    FractionFacts(s[0].timestamp, s[1].timestamp, t);
  }

  /** The linear target never leaves the box spanned by the two oldest positions. */
  lemma LinearTargetBetween(s: seq<TransformState>, t: real)
    requires |s| >= 2
    ensures Between(s[0].position.x, s[1].position.x, LinearTarget(s, t).x)
    ensures Between(s[0].position.y, s[1].position.y, LinearTarget(s, t).y)
    ensures Between(s[0].position.z, s[1].position.z, LinearTarget(s, t).z)
  {
    LerpBetween(s[0].position, s[1].position, InverseLerp(s[0].timestamp, s[1].timestamp, t));
  }

  /**
   * The spline target is exactly s[1]'s position at (and before) s[1]'s stamp and exactly
   * s[2]'s at (and after) s[2]'s stamp.
   */
  lemma CatmullRomTargetAtKnots(s: seq<TransformState>, t: real)
    requires |s| >= 4 && s[1].timestamp < s[2].timestamp
    ensures t <= s[1].timestamp ==> CatmullRomTarget(s, t) == s[1].position
    ensures t >= s[2].timestamp ==> CatmullRomTarget(s, t) == s[2].position
  {
    InverseLerpFacts(s[1].timestamp, s[2].timestamp, t);
    if t <= s[1].timestamp {
      CatmullRomAtZero(s[0].position, s[1].position, s[2].position, s[3].position);
    }
    if t >= s[2].timestamp {
      CatmullRomAtOne(s[0].position, s[1].position, s[2].position, s[3].position);
    }
  }

  /**
   * Whenever the time is not after s[1]'s stamp and s[1], s[2] are in order (equal stamps
   * included), the spline target is exactly s[1]'s position.
   */
  lemma CatmullRomTargetBeforeBracket(s: seq<TransformState>, t: real)
    requires |s| >= 4 && t <= s[1].timestamp <= s[2].timestamp
    ensures CatmullRomTarget(s, t) == s[1].position
  {
    if s[1].timestamp < s[2].timestamp {
      InverseLerpFacts(s[1].timestamp, s[2].timestamp, t);
    }
    CatmullRomAtZero(s[0].position, s[1].position, s[2].position, s[3].position);
  }

  /**
   * Whenever the time is not after s[0]'s stamp and s[0], s[1] are in order (equal stamps
   * included), the linear target is exactly s[0]'s position.
   */
  lemma LinearTargetBeforeBracket(s: seq<TransformState>, t: real)
    requires |s| >= 2 && t <= s[0].timestamp <= s[1].timestamp
    ensures LinearTarget(s, t) == s[0].position
  {
    if s[0].timestamp < s[1].timestamp {
      InverseLerpFacts(s[0].timestamp, s[1].timestamp, t);
    }
  }

  /**
   * For an in-order history whose oldest entry is not before the time, both interpolating
   * branches land exactly on a snapshot: the spline on s[1], the lerp on s[0].
   */
  lemma InterpolationNotAfterHistory(s: seq<TransformState>, t: real)
    requires NonDecreasing(s) && |s| >= 2 && t <= s[0].timestamp
    ensures LinearTarget(s, t) == s[0].position
    ensures |s| >= 4 ==> CatmullRomTarget(s, t) == s[1].position
  {
    assert s[0].timestamp <= s[1].timestamp;
    LinearTargetBeforeBracket(s, t);
    if |s| >= 4 {
      assert s[1].timestamp <= s[2].timestamp;
      CatmullRomTargetBeforeBracket(s, t);
    }
  }

  /**
   * When four snapshots are evenly spaced along a line, the spline branch and the linear
   * branch over s[1], s[2] agree at every time.
   */
  lemma CatmullRomTargetMatchesLinearOnLine(s: seq<TransformState>, t: real, d: Vec3)
    requires |s| >= 4
    requires s[1].position == Add(s[0].position, d)
    requires s[2].position == Add(s[0].position, Scale(2.0, d))
    requires s[3].position == Add(s[0].position, Scale(3.0, d))
    ensures CatmullRomTarget(s, t) == LinearTarget(s[1..], t)
  {
    var u := InverseLerp(s[1].timestamp, s[2].timestamp, t);
    CatmullRomOnUniformLine(s[0].position, d, u);
    var a := s[0].position;
    assert Sub(Add(a, Scale(2.0, d)), Add(a, d)) == d;
  }

  /**
   * The single-snapshot extrapolation looks ahead by the elapsed time while that is below
   * the back time, and by exactly the back time beyond it.
   */
  lemma ExtrapolationLeadIsCapped(last: TransformState, v: Vec3, t: real, cfg: Settings)
    ensures t - last.timestamp >= cfg.interpolationBackTime ==>
              ExtrapolatedTarget(last, v, t, cfg)
              == Add(last.position, Scale(cfg.extrapolationMultiplier, Scale(cfg.interpolationBackTime, v)))
    ensures t - last.timestamp <= cfg.interpolationBackTime ==>
              ExtrapolatedTarget(last, v, t, cfg)
              == Add(last.position, Scale(cfg.extrapolationMultiplier, Scale(t - last.timestamp, v)))
  {
  }

  /** Without a velocity estimate the extrapolating branches stay where they start. */
  lemma ExtrapolationWithoutVelocity(s: seq<TransformState>, t: real, current: Vec3,
                                     deltaTime: real, cfg: Settings)
    requires |s| <= 1
    ensures |s| == 1 ==> ResolvedTarget(s, t, Zero, current, deltaTime, cfg) == s[0].position
    ensures |s| == 0 ==> ResolvedTarget(s, t, Zero, current, deltaTime, cfg) == current
  {
  }

  /**
   * Which snapshots each rung of the length ladder reads: four or more snapshots use the
   * spline over the first four only (later ones never influence the target), two or three
   * the lerp over the two OLDEST only (so a third is ignored), one extrapolates from it
   * and none from the current position.
   */
  lemma StrategyByLength(s: seq<TransformState>, t: real, v: Vec3, current: Vec3,
                         deltaTime: real, cfg: Settings)
    ensures |s| >= 4 ==> ResolvedTarget(s, t, v, current, deltaTime, cfg) == CatmullRomTarget(s[..4], t)
    ensures 2 <= |s| <= 3 ==> ResolvedTarget(s, t, v, current, deltaTime, cfg) == LinearTarget(s[..2], t)
    ensures |s| == 1 ==> ResolvedTarget(s, t, v, current, deltaTime, cfg) == ExtrapolatedTarget(s[0], v, t, cfg)
    ensures |s| == 0 ==> ResolvedTarget(s, t, v, current, deltaTime, cfg)
                         == Add(current, Scale(cfg.extrapolationMultiplier, Scale(deltaTime, v)))
  {
  }
}
