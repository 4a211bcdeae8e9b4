/**
 * What the remote path (push, prune, resolve) guarantees when it is run as a whole:
 * the history is never empty when the resolver reads it, and with timestamps in order
 * the interpolating branches always land on a snapshot.
 */
module RemotePath {
  import opened Vectors
  import opened Configuration
  import opened SnapshotBuffer
  import opened VelocityEstimator
  import opened Resolver

  /** The history the resolver sees after the remote path admits `p` at `now` and prunes. */
  function RemoteHistory(s: seq<TransformState>, p: Vec3, now: real, cfg: Settings): seq<TransformState> {
    Pruned(Enqueued(s, TransformState(p, now), cfg.maxBufferSize),
           now - cfg.interpolationBackTime, now, cfg.maxStateAge)
  }

  /**
   * With room for one snapshot and a non-negative maximum age, the history handed to the
   * resolver holds the snapshot just admitted as its newest entry: that snapshot is the
   * last of the admitted queue and is fresh, and pruning keeps a fresh last entry. So the
   * empty-history branch of ComputeTargetPosition is unreachable from the remote path.
   */
  lemma RemoteHistoryEndsWithAdmitted(s: seq<TransformState>, p: Vec3, now: real, cfg: Settings)
    requires cfg.maxBufferSize >= 1 && cfg.maxStateAge >= 0.0
    ensures |RemoteHistory(s, p, now, cfg)| >= 1
    ensures RemoteHistory(s, p, now, cfg)[|RemoteHistory(s, p, now, cfg)| - 1] == TransformState(p, now)
  {
    var q := Enqueued(s, TransformState(p, now), cfg.maxBufferSize);
    PrunedKeepsFreshLast(q, now - cfg.interpolationBackTime, now, cfg.maxStateAge);
  }

  /** An in-order history stamped no later than `now` stays in order through the remote path. */
  lemma RemoteHistoryNonDecreasing(s: seq<TransformState>, p: Vec3, now: real, cfg: Settings)
    requires NonDecreasing(s) && NotAfter(s, now)
    ensures NonDecreasing(RemoteHistory(s, p, now, cfg))
  {
    var q := Enqueued(s, TransformState(p, now), cfg.maxBufferSize);
    EnqueuedNonDecreasing(s, TransformState(p, now), cfg.maxBufferSize);
    PrunedNonDecreasing(q, now - cfg.interpolationBackTime, now, cfg.maxStateAge);
  }

  /** With timestamps in order, two or more retained snapshots all lie at or after the interpolation time. */
  lemma RemoteHeadNotBeforeInterpolationTime(s: seq<TransformState>, p: Vec3, now: real, cfg: Settings)
    requires NonDecreasing(s) && NotAfter(s, now)
    requires |RemoteHistory(s, p, now, cfg)| >= 2
    ensures now - cfg.interpolationBackTime <= RemoteHistory(s, p, now, cfg)[0].timestamp
  {
    var q := Enqueued(s, TransformState(p, now), cfg.maxBufferSize);
    EnqueuedNonDecreasing(s, TransformState(p, now), cfg.maxBufferSize);
    PrunedHeadNotBeforeCutoff(q, now - cfg.interpolationBackTime, now, cfg.maxStateAge);
  }

  /**
   * With timestamps in order, phase 1 of pruning has already removed every snapshot older
   * than the interpolation time, so on the remote path the interpolation parameter of
   * both interpolating branches is always 0.
   */
  lemma RemoteInterpolationParameterIsZero(s: seq<TransformState>, p: Vec3, now: real, cfg: Settings)
    requires NonDecreasing(s) && NotAfter(s, now)
    requires |RemoteHistory(s, p, now, cfg)| >= 2
    ensures var h := RemoteHistory(s, p, now, cfg);
            InverseLerp(h[0].timestamp, h[1].timestamp, now - cfg.interpolationBackTime) == 0.0
    ensures var h := RemoteHistory(s, p, now, cfg);
            |h| >= 4 ==> InverseLerp(h[1].timestamp, h[2].timestamp, now - cfg.interpolationBackTime) == 0.0
  {
    var h := RemoteHistory(s, p, now, cfg);
    var t := now - cfg.interpolationBackTime;
    RemoteHistoryNonDecreasing(s, p, now, cfg);
    RemoteHeadNotBeforeInterpolationTime(s, p, now, cfg);
    assert h[0].timestamp <= h[1].timestamp;
    if h[0].timestamp < h[1].timestamp {
      InverseLerpFacts(h[0].timestamp, h[1].timestamp, t);
    }
    if |h| >= 4 {
      assert h[1].timestamp <= h[2].timestamp;
      if h[1].timestamp < h[2].timestamp {
        InverseLerpFacts(h[1].timestamp, h[2].timestamp, t);
      }
    }
  }

  /** Hence the linear branch of the remote path returns the oldest retained position. */
  lemma RemoteLinearLandsOnOldest(s: seq<TransformState>, p: Vec3, now: real, cfg: Settings)
    requires NonDecreasing(s) && NotAfter(s, now)
    requires |RemoteHistory(s, p, now, cfg)| >= 2
    ensures var h := RemoteHistory(s, p, now, cfg);
            LinearTarget(h, now - cfg.interpolationBackTime) == h[0].position
  {
    RemoteHistoryNonDecreasing(s, p, now, cfg);
    RemoteHeadNotBeforeInterpolationTime(s, p, now, cfg);
    InterpolationNotAfterHistory(RemoteHistory(s, p, now, cfg), now - cfg.interpolationBackTime);
  }

  /** For the same reason the spline branch returns the second-oldest retained position. */
  lemma RemoteSplineLandsOnSecond(s: seq<TransformState>, p: Vec3, now: real, cfg: Settings)
    requires NonDecreasing(s) && NotAfter(s, now)
    requires |RemoteHistory(s, p, now, cfg)| >= 4
    ensures var h := RemoteHistory(s, p, now, cfg);
            CatmullRomTarget(h, now - cfg.interpolationBackTime) == h[1].position
  {
    RemoteHistoryNonDecreasing(s, p, now, cfg);
    RemoteHeadNotBeforeInterpolationTime(s, p, now, cfg);
    InterpolationNotAfterHistory(RemoteHistory(s, p, now, cfg), now - cfg.interpolationBackTime);
  }

  /**
   * With a single retained snapshot (the one just admitted, stamped `now`) the elapsed
   * time is minus the back time b, and ExtrapolateFromLastState's Min(b, -b) is -|b|: the
   * extrapolation projects |b| backwards along the average velocity, whatever the sign of b.
   */
  lemma RemoteSingleSnapshotExtrapolatesBackwards(s: seq<TransformState>, p: Vec3, now: real,
                                                  cfg: Settings, v: Vec3)
    requires cfg.maxBufferSize >= 1 && cfg.maxStateAge >= 0.0
    requires |RemoteHistory(s, p, now, cfg)| == 1
    ensures var h := RemoteHistory(s, p, now, cfg);
            var b := cfg.interpolationBackTime;
            ExtrapolatedTarget(h[0], v, now - b, cfg)
            == Add(p, Scale(cfg.extrapolationMultiplier, Scale(if b >= 0.0 then -b else b, v)))
  {
    var h := RemoteHistory(s, p, now, cfg);
    var b := cfg.interpolationBackTime;
    RemoteHistoryEndsWithAdmitted(s, p, now, cfg);
    assert h[0] == TransformState(p, now);
    assert now - b - now == -b;
  }
}
