/**
 * The velocity estimator: finite-difference velocities between two snapshots, kept in a
 * second bounded FIFO, and their arithmetic mean.
 */
module VelocityEstimator {
  import opened Vectors
  import opened SnapshotBuffer

  /**
   * `(newer.Position - older.Position) / dt` for a positive time step `dt`: the constant
   * velocity that carries the older position to the newer one in that time.
   */
  function FiniteDifference(older: TransformState, newer: TransformState): Vec3
    requires newer.timestamp - older.timestamp > 0.0
  {
    Div(Sub(newer.position, older.position), newer.timestamp - older.timestamp)
  }

  /** Moving at the finite-difference velocity for `dt` carries the older position to the newer. */
  lemma FiniteDifferenceCarries(older: TransformState, newer: TransformState)
    requires newer.timestamp - older.timestamp > 0.0
    ensures Add(older.position, Scale(newer.timestamp - older.timestamp, FiniteDifference(older, newer)))
            == newer.position
  {
    ScaleOfDiv(Sub(newer.position, older.position), newer.timestamp - older.timestamp);
  }

  /**
   * The velocity buffer after RecordVelocity(older, newer): unchanged when the time step
   * is not positive; otherwise the new sample is pushed with overflow eviction.
   */
  function WithSample(buffer: seq<Vec3>, older: TransformState, newer: TransformState,
                      capacity: nat): (r: seq<Vec3>)
    ensures newer.timestamp - older.timestamp <= 0.0 ==> r == buffer
    ensures |buffer| <= capacity ==> |r| <= capacity
  {
    var dt := newer.timestamp - older.timestamp;
    if dt <= 0.0 then buffer
    else Enqueued(buffer, FiniteDifference(older, newer), capacity)
  }

  /**
   * With a positive time step and room for a sample, the buffer gains as its newest entry
   * the velocity that carries `older` to `newer`, and keeps the rest of its samples in
   * order, losing at most the oldest.
   */
  lemma WithSampleAppends(buffer: seq<Vec3>, older: TransformState, newer: TransformState,
                          capacity: nat)
    requires newer.timestamp - older.timestamp > 0.0 && capacity >= 1
    ensures var r := WithSample(buffer, older, newer, capacity);
            |buffer| <= |r| <= |buffer| + 1 && r[..|r| - 1] == buffer[|buffer| + 1 - |r|..] &&
            Add(older.position, Scale(newer.timestamp - older.timestamp, r[|r| - 1])) == newer.position
  {
    FiniteDifferenceCarries(older, newer);
    var r := WithSample(buffer, older, newer, capacity);
    var pushed := buffer + [FiniteDifference(older, newer)];
    assert r[..|r| - 1] == pushed[|pushed| - |r|..|pushed| - 1];
  }

  /** The running sum of the foreach loop, adding the samples from oldest to newest. */
  function Sum(vs: seq<Vec3>): Vec3
    decreases |vs|
  {
    if |vs| == 0 then Zero else Add(Sum(vs[..|vs| - 1]), vs[|vs| - 1])
  }

  /**
   * ComputeAverageVelocity's value: the zero vector for an empty buffer, otherwise the
   * vector whose `|vs|`-fold multiple is the sum of the samples.
   */
  function Mean(vs: seq<Vec3>): (m: Vec3)
    ensures |vs| == 0 ==> m == Zero
  {
    if |vs| == 0 then Zero else Div(Sum(vs), |vs| as real)
  }

  /** The `|vs|`-fold multiple of the mean of a non-empty buffer is the sum of its samples. */
  lemma MeanTimesCountIsSum(vs: seq<Vec3>)
    requires |vs| > 0
    ensures Scale(|vs| as real, Mean(vs)) == Sum(vs)
  {
    ScaleOfDiv(Sum(vs), |vs| as real);
  }

  /** The sum of `n` copies of `v` is `n * v`. */
  lemma {:induction false} SumOfEqualSamples(vs: seq<Vec3>, v: Vec3)
    requires forall i :: 0 <= i < |vs| ==> vs[i] == v
    ensures Sum(vs) == Scale(|vs| as real, v)
    decreases |vs|
  {
    if |vs| > 0 {
      var init := vs[..|vs| - 1];
      SumOfEqualSamples(init, v);
      var n := |init| as real;
      assert Sum(vs) == Add(Scale(n, v), v);
      assert (n + 1.0) * v.x == n * v.x + v.x;
      assert (n + 1.0) * v.y == n * v.y + v.y;
      assert (n + 1.0) * v.z == n * v.z + v.z;
    }
  }

  /** A buffer holding `n >= 1` copies of the same sample `v` averages to exactly `v`. */
  lemma MeanOfEqualSamples(vs: seq<Vec3>, v: Vec3)
    requires |vs| > 0
    requires forall i :: 0 <= i < |vs| ==> vs[i] == v
    ensures Mean(vs) == v
  {
    SumOfEqualSamples(vs, v);
    DivOfScale(|vs| as real, v);
  }

  /**
   * Each coordinate of the mean lies within any bounds that every sample's coordinate
   * respects (shown for x; y and z are symmetric).
   */
  lemma MeanWithinBounds(vs: seq<Vec3>, lo: real, hi: real)
    requires |vs| > 0
    requires forall i :: 0 <= i < |vs| ==> lo <= vs[i].x <= hi
    ensures lo <= Mean(vs).x <= hi
  {
    SumWithinBounds(vs, lo, hi);
    MeanTimesCountIsSum(vs);
    var n := |vs| as real;
    var m := Mean(vs);
    assert n * m.x == Sum(vs).x;
  }

  lemma {:induction false} SumWithinBounds(vs: seq<Vec3>, lo: real, hi: real)
    requires forall i :: 0 <= i < |vs| ==> lo <= vs[i].x <= hi
    ensures (|vs| as real) * lo <= Sum(vs).x <= (|vs| as real) * hi
    decreases |vs|
  {
    if |vs| > 0 {
      var init := vs[..|vs| - 1];
      SumWithinBounds(init, lo, hi);
      var n := |init| as real;
      assert (n + 1.0) * lo == n * lo + lo;
      assert (n + 1.0) * hi == n * hi + hi;
    }
  }
}
