/**
 * The ClientMovementNetworkTransform component: a client-authoritative network transform
 * that keeps a history of timestamped snapshots and a buffer of recent velocities, and on
 * every transform update either records the owner's predicted position or resolves and
 * smooths a remote player's position from that history.
 *
 * The engine's clock (NetworkManager's local time), the frame time, the rigidbody lookup
 * and Vector3.SmoothDamp are outside the component; the methods take them as parameters.
 */
module ClientMovement {
  import opened Vectors
  import opened Configuration
  import opened SnapshotBuffer
  import opened VelocityEstimator
  import opened Resolver
  import opened RemotePath

  datatype Option<T> = None | Some(value: T)

  /**
   * Vector3.SmoothDamp(current, target, ref velocity, smoothTime) with the frame time:
   * maps (current, target, velocity, smoothTime, deltaTime) to the new position and the
   * new smoothing velocity.
   */
  type SmoothDampFn = (Vec3, Vec3, Vec3, real, real) -> (Vec3, Vec3)

  /** The snap test of ApplySmoothedPosition: strictly farther than the snap distance. */
  predicate ShouldSnap(current: Vec3, target: Vec3, snapDistance: real) {
    SqrMagnitude(Sub(current, target)) > snapDistance * snapDistance
  }

  /** A body already at its target never snaps, whatever the snap distance. */
  lemma NoSnapAtTarget(target: Vec3, snapDistance: real)
    ensures !ShouldSnap(target, target, snapDistance)
  {
  }

  /**
   * The snap threshold is strict, in both directions: a body at distance `e` from its
   * target, in any direction, snaps exactly when `e` exceeds the snap distance, so a
   * distance of exactly the snap distance is smoothed.
   */
  lemma SnapThresholdIsStrict(current: Vec3, target: Vec3, snapDistance: real, e: real)
    requires snapDistance >= 0.0 && e >= 0.0
    requires SqrMagnitude(Sub(current, target)) == e * e
    ensures ShouldSnap(current, target, snapDistance) <==> e > snapDistance
  {
    SquaresCompare(e, snapDistance);
  }

  class ClientMovementNetworkTransform {
    /** The serialized interpolation and buffer settings. */
    const settings: Settings
    /** _stateSnapshots, oldest first. */
    var stateSnapshots: seq<TransformState>
    /** _velocityBuffer, oldest first. */
    var velocityBuffer: seq<Vec3>
    /** _smoothVelocity, SmoothDamp's running velocity. */
    var smoothVelocity: Vec3
    /** transform.position */
    var position: Vec3

    /** Both queues stay within their capacities, and the smoothing time is defined. */
    ghost predicate Valid()
      reads this
    {
      ValidSettings(settings) &&
      |stateSnapshots| <= settings.maxBufferSize &&
      |velocityBuffer| <= settings.velocityBufferSize
    }

    /** Awake: the history is reset to a single snapshot of the spawn position. */
    constructor (settings: Settings, spawnPosition: Vec3, now: real)
      requires ValidSettings(settings)
      ensures Valid()
      ensures this.settings == settings && position == spawnPosition
      ensures stateSnapshots == Enqueued([], TransformState(spawnPosition, now), settings.maxBufferSize)
      ensures velocityBuffer == [] && smoothVelocity == Zero
    {
      this.settings := settings;
      stateSnapshots := [];
      velocityBuffer := [];
      smoothVelocity := Zero;
      position := spawnPosition;
      new;
      AddStateSnapshot(spawnPosition, now);
    }

    /** OnInitialize: both queues are cleared and the current position is recorded. */
    method OnInitialize(now: real)
      requires Valid()
      modifies this`stateSnapshots, this`velocityBuffer
      ensures Valid()
      ensures stateSnapshots == Enqueued([], TransformState(position, now), settings.maxBufferSize)
      ensures velocityBuffer == []
    {
      stateSnapshots := [];
      velocityBuffer := [];
      AddStateSnapshot(position, now);
    }

    /** Enqueue the snapshot, then dequeue the oldest once the buffer is over capacity. */
    method AddStateSnapshot(pos: Vec3, time: real)
      requires Valid()
      modifies this`stateSnapshots
      ensures Valid()
      ensures stateSnapshots == Enqueued(old(stateSnapshots), TransformState(pos, time), settings.maxBufferSize)
    {
      stateSnapshots := stateSnapshots + [TransformState(pos, time)];
      if |stateSnapshots| > settings.maxBufferSize {
        stateSnapshots := stateSnapshots[1..];
      }
    }

    /**
     * The two dequeue loops: first the oldest snapshot goes while two or more remain and
     * it is older than the cutoff, then while it is more than maxStateAge older than `now`.
     */
    method PruneOldStates(cutoffTime: real, now: real)
      requires Valid()
      modifies this`stateSnapshots
      ensures Valid()
      ensures stateSnapshots == Pruned(old(stateSnapshots), cutoffTime, now, settings.maxStateAge)
    {
      ghost var s0 := stateSnapshots;
      while |stateSnapshots| >= 2 && stateSnapshots[0].timestamp < cutoffTime
        invariant |stateSnapshots| <= |s0|
        invariant DropBeforeCutoff(stateSnapshots, cutoffTime) == DropBeforeCutoff(s0, cutoffTime)
        decreases |stateSnapshots|
      {
        stateSnapshots := stateSnapshots[1..];
      }
      ghost var s1 := stateSnapshots;
      while |stateSnapshots| > 0 && now - stateSnapshots[0].timestamp > settings.maxStateAge
        invariant |stateSnapshots| <= |s1|
        invariant DropStale(stateSnapshots, now, settings.maxStateAge) == DropStale(s1, now, settings.maxStateAge)
        decreases |stateSnapshots|
      {
        stateSnapshots := stateSnapshots[1..];
      }
    }

    /**
     * Push the finite-difference velocity from `older` to `newer` (with overflow eviction),
     * or nothing when the time step is not positive.
     */
    method RecordVelocity(older: TransformState, newer: TransformState)
      requires Valid()
      modifies this`velocityBuffer
      ensures Valid()
      ensures velocityBuffer == WithSample(old(velocityBuffer), older, newer, settings.velocityBufferSize)
    {
      var dt := newer.timestamp - older.timestamp;
      if dt <= 0.0 {
        return;
      }
      var vel := Div(Sub(newer.position, older.position), dt);
      velocityBuffer := velocityBuffer + [vel];
      if |velocityBuffer| > settings.velocityBufferSize {
        velocityBuffer := velocityBuffer[1..];
      }
    }

    /** The zero vector for an empty buffer, otherwise the sum of the samples over their count. */
    method ComputeAverageVelocity() returns (avg: Vec3)
      ensures avg == Mean(velocityBuffer)
    {
      if |velocityBuffer| == 0 {
        return Zero;
      }
      var sum := Zero;
      for i := 0 to |velocityBuffer|
        invariant sum == Sum(velocityBuffer[..i])
      {
        assert velocityBuffer[..i + 1][..i] == velocityBuffer[..i];
        sum := Add(sum, velocityBuffer[i]);
      }
      assert velocityBuffer[..|velocityBuffer|] == velocityBuffer;
      avg := Div(sum, |velocityBuffer| as real);
    }

    /** The spline between s[1] and s[2], recording the velocity between them. */
    method InterpolateUsingCatmullRom(s: seq<TransformState>, t: real) returns (target: Vec3)
      requires Valid() && |s| >= 4
      modifies this`velocityBuffer
      ensures Valid()
      ensures target == CatmullRomTarget(s, t)
      ensures velocityBuffer == WithSample(old(velocityBuffer), s[1], s[2], settings.velocityBufferSize)
    {
      var u := InverseLerp(s[1].timestamp, s[2].timestamp, t);
      RecordVelocity(s[1], s[2]);
      target := CatmullRom(s[0].position, s[1].position, s[2].position, s[3].position, u);
    }

    /** The lerp between s[0] and s[1], recording the velocity between them. */
    method InterpolateLinearly(s: seq<TransformState>, t: real) returns (target: Vec3)
      requires Valid() && |s| >= 2
      modifies this`velocityBuffer
      ensures Valid()
      ensures target == LinearTarget(s, t)
      ensures velocityBuffer == WithSample(old(velocityBuffer), s[0], s[1], settings.velocityBufferSize)
    {
      var u := InverseLerp(s[0].timestamp, s[1].timestamp, t);
      RecordVelocity(s[0], s[1]);
      target := Lerp(s[0].position, s[1].position, u);
    }

    /** Project `last` along the average velocity, for at most the interpolation back time. */
    method ExtrapolateFromLastState(last: TransformState, t: real) returns (target: Vec3)
      ensures target == ExtrapolatedTarget(last, Mean(velocityBuffer), t, settings)
    {
      var delta := Min(settings.interpolationBackTime, t - last.timestamp);
      var avg := ComputeAverageVelocity();
      target := Add(last.position, Scale(settings.extrapolationMultiplier, Scale(delta, avg)));
    }

    /** Pick the strategy by the number of retained snapshots and compute the target. */
    method ComputeTargetPosition(interpTime: real, deltaTime: real) returns (target: Vec3)
      requires Valid()
      modifies this`velocityBuffer
      ensures Valid()
      ensures target == ResolvedTarget(stateSnapshots, interpTime, Mean(old(velocityBuffer)),
                                       position, deltaTime, settings)
      ensures velocityBuffer == ResolvedVelocities(stateSnapshots, old(velocityBuffer),
                                                   settings.velocityBufferSize)
    {
      var states := stateSnapshots;
      if |states| >= 4 {
        target := InterpolateUsingCatmullRom(states, interpTime);
        return;
      }
      if |states| >= 2 {
        target := InterpolateLinearly(states, interpTime);
        return;
      }
      if |states| == 1 {
        target := ExtrapolateFromLastState(states[0], interpTime);
        return;
      }
      var avg := ComputeAverageVelocity();
      target := Add(position, Scale(settings.extrapolationMultiplier, Scale(deltaTime, avg)));
    }

    /**
     * Snap to the target (and forget the smoothing and velocity history) when it is
     * strictly farther than the snap distance; otherwise move by SmoothDamp with smoothing
     * time 1 / smoothingSpeed.
     */
    method ApplySmoothedPosition(target: Vec3, deltaTime: real, smoothDamp: SmoothDampFn)
      requires Valid()
      modifies this`position, this`smoothVelocity, this`velocityBuffer
      ensures Valid()
      ensures ShouldSnap(old(position), target, settings.snapDistance) ==>
                position == target && smoothVelocity == Zero && velocityBuffer == []
      ensures !ShouldSnap(old(position), target, settings.snapDistance) ==>
                (position, smoothVelocity)
                == smoothDamp(old(position), target, old(smoothVelocity), 1.0 / settings.smoothingSpeed, deltaTime)
                && velocityBuffer == old(velocityBuffer)
    {
      var snapSq := settings.snapDistance * settings.snapDistance;
      var sqrDist := SqrMagnitude(Sub(position, target));
      if sqrDist > snapSq {
        position := target;
        smoothVelocity := Zero;
        velocityBuffer := [];
      } else {
        var damped := smoothDamp(position, target, smoothVelocity, 1.0 / settings.smoothingSpeed, deltaTime);
        position := damped.0;
        smoothVelocity := damped.1;
      }
    }

    /**
     * The owner records where its rigidbody's velocity (zero without a rigidbody) carries
     * the current position in one frame.
     */
    method ProcessOwnerMovement(rigidbodyVelocity: Option<Vec3>, deltaTime: real, now: real)
      requires Valid()
      modifies this`stateSnapshots
      ensures Valid()
      ensures rigidbodyVelocity.None? ==>
                stateSnapshots == Enqueued(old(stateSnapshots), TransformState(position, now),
                                           settings.maxBufferSize)
      ensures rigidbodyVelocity.Some? ==>
                stateSnapshots == Enqueued(old(stateSnapshots),
                                           TransformState(Add(position, Scale(deltaTime, rigidbodyVelocity.value)), now),
                                           settings.maxBufferSize)
    {
      var vel := if rigidbodyVelocity.Some? then rigidbodyVelocity.value else Zero;
      var pred := Add(position, Scale(deltaTime, vel));
      assert rigidbodyVelocity.None? ==> pred == position;
      AddStateSnapshot(pred, now);
    }

    /**
     * A remote update: admit the received position at `now`, prune against the
     * interpolation time `now - interpolationBackTime`, resolve the target and smooth
     * towards it.
     */
    method ProcessRemoteMovement(incoming: Vec3, now: real, deltaTime: real, smoothDamp: SmoothDampFn)
      returns (ghost target: Vec3)
      requires Valid()
      modifies this`stateSnapshots, this`velocityBuffer, this`position, this`smoothVelocity
      ensures Valid()
      ensures stateSnapshots == RemoteHistory(old(stateSnapshots), incoming, now, settings)
      ensures target == ResolvedTarget(stateSnapshots, now - settings.interpolationBackTime,
                                       Mean(old(velocityBuffer)), old(position), deltaTime, settings)
      ensures ShouldSnap(old(position), target, settings.snapDistance) ==>
                position == target && smoothVelocity == Zero && velocityBuffer == []
      ensures !ShouldSnap(old(position), target, settings.snapDistance) ==>
                (position, smoothVelocity)
                == smoothDamp(old(position), target, old(smoothVelocity), 1.0 / settings.smoothingSpeed, deltaTime)
                && velocityBuffer == ResolvedVelocities(stateSnapshots, old(velocityBuffer),
                                                        settings.velocityBufferSize)
    {
      var interpTime := now - settings.interpolationBackTime;
      AddStateSnapshot(incoming, now);
      PruneOldStates(interpTime, now);
      var resolved := ComputeTargetPosition(interpTime, deltaTime);
      target := resolved;
      ApplySmoothedPosition(resolved, deltaTime, smoothDamp);
    }
  }
}
