# ClientMovementNetworkTransform — reconciliation core in Dafny

The model covers the client-authoritative network transform of a Unity multiplayer game.
Each replicated entity keeps two bounded FIFO queues:
- a history of timestamped position snapshots;
- a buffer of recent finite-difference velocities.

The owner's path runs on every transform update. It records where the rigidbody's
velocity carries the entity in one frame.

A remote update runs four steps in this order:
1. Admit the received position, stamped with the local time.
2. Prune the history in two phases: first by the interpolation time, then by the maximum age.
3. Pick a strategy by how many snapshots remain:
   - four or more: a Catmull-Rom spline;
   - two or three: linear interpolation;
   - one: extrapolation from that snapshot;
   - none: extrapolation from the current position.
4. Either snap to the resulting target or smooth towards it.

Module layout:
- `Vectors`: Vector3 over reals, plus the Unity helpers the core calls (Lerp, InverseLerp, Clamp01, Min).
- `Configuration`: the serialized settings and their defaults.
- `SnapshotBuffer`: the snapshot history, the overflow-evicting push and the two pruning phases.
- `VelocityEstimator`: the finite-difference velocity, the velocity buffer and its mean.
- `Resolver`: the Catmull-Rom spline, the three branch values and the strategy ladder, all as pure functions.
- `RemotePath`: what push followed by prune guarantees to the resolver.
- `ClientMovement`: the component as a class. Its fields are the two queues, the smoothing velocity and the position. Each method is proved against the pure functions above.

Two details of the code that a reader might expect to go the other way:
- The snap test is strict (`sqrDist > snapDistance²`, line 176). A body exactly at the snap distance is smoothed, not snapped. `SnapThresholdIsStrict` states this.
- A snap clears the velocity buffer and resets the smoothing velocity. It leaves the snapshot history as it is.

Some consequences of the code are proved rather than assumed. When timestamps never decrease, phase 1 of pruning has already dropped every snapshot older than the interpolation time whenever two or more remain. On the remote path this means:
- the interpolation parameter of both interpolating branches is always 0 (`RemoteInterpolationParameterIsZero`), so both land exactly on a snapshot;
- the linear branch returns the oldest retained position (`RemoteLinearLandsOnOldest`);
- the spline branch returns the second-oldest (`RemoteSplineLandsOnSecond`);
- a lone retained snapshot (the one just admitted) is extrapolated *backwards* by the magnitude of the back time, whatever its sign (`RemoteSingleSnapshotExtrapolatesBackwards`).

## Model

| member | source | states |
|---|---|---|
| Configuration.DefaultsAreValid | Assets/Scripts/Utils/ClientMovementNetworkTransform.cs:42-51 | The serialized defaults (0.2, 10, 5, 1.2, 40, 1, 5) have a non-zero smoothing speed, room for a snapshot, a non-negative maximum age and a non-negative back time, so the defaults meet the settings hypotheses of every RemotePath lemma. |
| SnapshotBuffer.TransformState | Assets/Scripts/Utils/ClientMovementNetworkTransform.cs:36-40 | A snapshot record: a position and the local time it was admitted at. |
| SnapshotBuffer.Enqueued | Assets/Scripts/Utils/ClientMovementNetworkTransform.cs:145-150 | The push grows the queue by one, or keeps its length when that would exceed the capacity. A queue within capacity stays within it. With capacity ≥ 1 the new snapshot is the last entry. |
| SnapshotBuffer.EnqueuedIsSuffix | Assets/Scripts/Utils/ClientMovementNetworkTransform.cs:147-149 | The pushed queue is a suffix of the old queue plus the new entry: entries are removed only from the front, and Enqueued's length ensures limit this to one. |
| SnapshotBuffer.EnqueuedAllBounded | Assets/Scripts/Utils/ClientMovementNetworkTransform.cs:145-150 | No sequence of pushes takes a queue above its capacity, or above its own length when it was already longer. |
| SnapshotBuffer.EnqueuedNonDecreasing | Assets/Scripts/Utils/ClientMovementNetworkTransform.cs:145-150 | Pushing a snapshot stamped no earlier than every entry keeps the history in timestamp order. |
| SnapshotBuffer.DropBeforeCutoff | Assets/Scripts/Utils/ClientMovementNetworkTransform.cs:103-104 | Phase 1 never empties a non-empty history. When two or more entries remain, the head is not older than the cutoff. |
| SnapshotBuffer.DropBeforeCutoffIsSuffix | Assets/Scripts/Utils/ClientMovementNetworkTransform.cs:103-104 | Phase 1 removes entries only from the front. |
| SnapshotBuffer.DropBeforeCutoffRemovesOnlyOld | Assets/Scripts/Utils/ClientMovementNetworkTransform.cs:103-104 | Every entry phase 1 removes was older than the cutoff. |
| SnapshotBuffer.DropStale | Assets/Scripts/Utils/ClientMovementNetworkTransform.cs:106-108 | After phase 2 the history is empty or its head is at most maxStateAge older than now. |
| SnapshotBuffer.DropStaleIsSuffix | Assets/Scripts/Utils/ClientMovementNetworkTransform.cs:106-108 | Phase 2 removes entries only from the front. |
| SnapshotBuffer.DropStaleRemovesOnlyStale | Assets/Scripts/Utils/ClientMovementNetworkTransform.cs:106-108 | Every entry phase 2 removes was more than maxStateAge older than now. |
| SnapshotBuffer.DropStaleKeepsFreshLast | Assets/Scripts/Utils/ClientMovementNetworkTransform.cs:106-108 | When the newest entry is fresh, phase 2 keeps it as the newest entry. |
| SnapshotBuffer.PrunedIsSuffix | Assets/Scripts/Utils/ClientMovementNetworkTransform.cs:101-109 | Both phases together leave an order-preserving suffix of the history. |
| SnapshotBuffer.PrunedNonDecreasing | Assets/Scripts/Utils/ClientMovementNetworkTransform.cs:101-109 | Pruning keeps an in-order history in order. |
| SnapshotBuffer.PrunedAllFresh | Assets/Scripts/Utils/ClientMovementNetworkTransform.cs:106-108 | With timestamps in order, every retained entry (not only the head) is at most maxStateAge older than now. |
| SnapshotBuffer.PrunedHeadNotBeforeCutoff | Assets/Scripts/Utils/ClientMovementNetworkTransform.cs:101-109 | With timestamps in order, when two or more entries survive, the oldest is not older than the cutoff. |
| SnapshotBuffer.PrunedKeepsFreshLast | Assets/Scripts/Utils/ClientMovementNetworkTransform.cs:101-109 | A fresh newest entry survives both phases and stays the newest, so pruning never empties such a history. |
| SnapshotBuffer.Pruned | Assets/Scripts/Utils/ClientMovementNetworkTransform.cs:101-109 | Body: phase 2 applied to the result of phase 1, the order of the two loops. Its properties are the Pruned* lemmas above. |
| VelocityEstimator.FiniteDifference | Assets/Scripts/Utils/ClientMovementNetworkTransform.cs:154-157 | Body: (newer − older position) / dt, defined only for dt > 0; FiniteDifferenceCarries states what it means. |
| VelocityEstimator.FiniteDifferenceCarries | Assets/Scripts/Utils/ClientMovementNetworkTransform.cs:154-157 | Moving at the recorded velocity for dt carries the older position exactly to the newer one. |
| VelocityEstimator.WithSample | Assets/Scripts/Utils/ClientMovementNetworkTransform.cs:152-161 | A non-positive time step leaves the buffer unchanged. A buffer within capacity stays within it. |
| VelocityEstimator.WithSampleAppends | Assets/Scripts/Utils/ClientMovementNetworkTransform.cs:152-161 | With a positive time step and capacity ≥ 1, the buffer grows by at most one and keeps its older samples in order, losing at most the oldest. Its newest sample carries the older position to the newer. |
| VelocityEstimator.Sum | Assets/Scripts/Utils/ClientMovementNetworkTransform.cs:166-167 | Body: the foreach accumulator, adding the samples oldest first from the zero vector. |
| VelocityEstimator.Mean | Assets/Scripts/Utils/ClientMovementNetworkTransform.cs:163-169 | An empty buffer averages to the zero vector. |
| VelocityEstimator.MeanTimesCountIsSum | Assets/Scripts/Utils/ClientMovementNetworkTransform.cs:166-168 | The count times the mean of a non-empty buffer is the sum of its samples. |
| VelocityEstimator.SumOfEqualSamples | Assets/Scripts/Utils/ClientMovementNetworkTransform.cs:166-167 | The sum of n copies of v is n·v. |
| VelocityEstimator.MeanOfEqualSamples | Assets/Scripts/Utils/ClientMovementNetworkTransform.cs:163-169 | n ≥ 1 copies of v average to exactly v. |
| VelocityEstimator.SumWithinBounds | Assets/Scripts/Utils/ClientMovementNetworkTransform.cs:166-167 | When every sample's x lies in [lo, hi], the sum's x lies in [n·lo, n·hi]. |
| VelocityEstimator.MeanWithinBounds | Assets/Scripts/Utils/ClientMovementNetworkTransform.cs:163-169 | The mean's x lies within any bounds that every sample's x respects. |
| Vectors.Min | Assets/Scripts/Utils/ClientMovementNetworkTransform.cs:140 | Mathf.Min: the result is at most both arguments and equals one of them. |
| Vectors.Clamp01 | Assets/Scripts/Utils/ClientMovementNetworkTransform.cs:124 | Mathf.Clamp01, as used inside Mathf.InverseLerp: the result lies in [0, 1], is the input inside it, and the nearer end outside it. |
| Vectors.Lerp | Assets/Scripts/Utils/ClientMovementNetworkTransform.cs:135 | Vector3.Lerp gives the start at t ≤ 0 and the end at t ≥ 1. |
| Vectors.LerpBetween | Assets/Scripts/Utils/ClientMovementNetworkTransform.cs:135 | Every coordinate of a lerp lies between the matching coordinates of its ends. |
| Vectors.InverseLerp | Assets/Scripts/Utils/ClientMovementNetworkTransform.cs:124 | The normalised parameter always lies in [0, 1] and is 0 when the two stamps coincide. |
| Vectors.InverseLerpFacts | Assets/Scripts/Utils/ClientMovementNetworkTransform.cs:133 | For increasing stamps the parameter is 0 up to the first, 1 from the second on, and in between exactly places t on the segment. |
| Resolver.CatmullRom | Assets/Scripts/Utils/ClientMovementNetworkTransform.cs:193-202 | Body: the uniform Catmull-Rom formula 0.5·(2p1 + (−p0+p2)t + (2p0−5p1+4p2−p3)t² + (−p0+3p1−3p2+p3)t³); the lemmas below state its end points and its linear case. |
| Resolver.CatmullRomTarget | Assets/Scripts/Utils/ClientMovementNetworkTransform.cs:124-128 | Body: the spline over s[0..3] at InverseLerp(s[1] stamp, s[2] stamp, t). |
| Resolver.LinearTarget | Assets/Scripts/Utils/ClientMovementNetworkTransform.cs:133-135 | Body: the lerp from s[0] to s[1] at InverseLerp(s[0] stamp, s[1] stamp, t). |
| Resolver.ExtrapolatedTarget | Assets/Scripts/Utils/ClientMovementNetworkTransform.cs:140-142 | Body: last position + multiplier · Min(backTime, t − last stamp) · average velocity. |
| Resolver.ResolvedTarget | Assets/Scripts/Utils/ClientMovementNetworkTransform.cs:111-120 | Body: the length ladder ≥ 4 / ≥ 2 / = 1 / 0 over the three targets above and the current-position extrapolation; StrategyByLength states which entries each rung reads. |
| Resolver.CatmullRomAtZero | Assets/Scripts/Utils/ClientMovementNetworkTransform.cs:193-202 | The spline at t = 0 is exactly p1. |
| Resolver.CatmullRomAtOne | Assets/Scripts/Utils/ClientMovementNetworkTransform.cs:193-202 | The spline at t = 1 is exactly p2. |
| Resolver.CatmullRomOnUniformLine | Assets/Scripts/Utils/ClientMovementNetworkTransform.cs:193-202 | On four evenly spaced collinear control points, the spline is the straight segment p1 + t·d. |
| Resolver.CatmullRomTargetAtKnots | Assets/Scripts/Utils/ClientMovementNetworkTransform.cs:122-129 | For increasing s[1], s[2] stamps, the spline target is s[1] at or before s[1]'s stamp and s[2] at or after s[2]'s. |
| Resolver.CatmullRomTargetBeforeBracket | Assets/Scripts/Utils/ClientMovementNetworkTransform.cs:122-129 | When t is not after s[1]'s stamp and s[1] ≤ s[2] in time (equal stamps included), the spline target is s[1]. |
| Resolver.CatmullRomTargetMatchesLinearOnLine | Assets/Scripts/Utils/ClientMovementNetworkTransform.cs:122-136 | On evenly spaced collinear snapshots the spline branch agrees with a lerp over s[1], s[2]. |
| Resolver.LinearTargetAtEnds | Assets/Scripts/Utils/ClientMovementNetworkTransform.cs:131-136 | For increasing stamps the linear target is s[0] at or before s[0]'s stamp and s[1] at or after s[1]'s. |
| Resolver.LinearTargetSameStamp | Assets/Scripts/Utils/ClientMovementNetworkTransform.cs:131-136 | Two snapshots with equal stamps give the older position at every time. |
| Resolver.LinearTargetProportional | Assets/Scripts/Utils/ClientMovementNetworkTransform.cs:131-136 | Inside the bracket, the linear target lies the same fraction of the way from p0 to p1 as t lies from t0 to t1. |
| Resolver.LinearTargetBetween | Assets/Scripts/Utils/ClientMovementNetworkTransform.cs:131-136 | The linear target stays in the box spanned by the two oldest positions. |
| Resolver.LinearTargetBeforeBracket | Assets/Scripts/Utils/ClientMovementNetworkTransform.cs:131-136 | When t is not after s[0]'s stamp and s[0] ≤ s[1] in time, the linear target is s[0]. |
| Resolver.InterpolationNotAfterHistory | Assets/Scripts/Utils/ClientMovementNetworkTransform.cs:122-136 | For an in-order history whose head is not before t, the lerp lands on s[0] and the spline on s[1]. |
| Resolver.ExtrapolationLeadIsCapped | Assets/Scripts/Utils/ClientMovementNetworkTransform.cs:138-143 | The single-snapshot extrapolation looks ahead by the elapsed time below the back time, and by exactly the back time beyond it. |
| Resolver.ExtrapolationWithoutVelocity | Assets/Scripts/Utils/ClientMovementNetworkTransform.cs:116-119 | With a zero average velocity, the one-snapshot branch returns that snapshot and the empty branch returns the current position. |
| Resolver.StrategyByLength | Assets/Scripts/Utils/ClientMovementNetworkTransform.cs:111-120 | Only the first four snapshots (≥ 4: spline) or the first two (2–3: lerp, a third is ignored) influence the target; 1 extrapolates from that snapshot; 0 extrapolates from the current position by deltaTime. |
| Resolver.ResolvedVelocities | Assets/Scripts/Utils/ClientMovementNetworkTransform.cs:114-116 | Resolving keeps the velocity buffer within capacity, and records nothing with fewer than two snapshots. |
| RemotePath.RemoteHistory | Assets/Scripts/Utils/ClientMovementNetworkTransform.cs:93-95 | Body: Pruned applied to the history with (incoming, now) pushed, cutoff now − interpolationBackTime. |
| RemotePath.RemoteHistoryEndsWithAdmitted | Assets/Scripts/Utils/ClientMovementNetworkTransform.cs:91-109 | With maxBufferSize ≥ 1 and maxStateAge ≥ 0, after push and prune of the remote path the history is non-empty and ends with the snapshot just admitted. |
| RemotePath.RemoteHistoryNonDecreasing | Assets/Scripts/Utils/ClientMovementNetworkTransform.cs:93-95 | An in-order history stamped no later than now stays in order through push and prune. |
| RemotePath.RemoteHeadNotBeforeInterpolationTime | Assets/Scripts/Utils/ClientMovementNetworkTransform.cs:93-95 | With timestamps in order, when two or more snapshots reach the resolver, the oldest is not before the interpolation time. |
| RemotePath.RemoteInterpolationParameterIsZero | Assets/Scripts/Utils/ClientMovementNetworkTransform.cs:93-95 | With timestamps in order and two or more snapshots retained, the InverseLerp parameter of the linear branch (lines 103, 133) and, with four or more, of the spline branch (line 124) is exactly 0. |
| RemotePath.RemoteLinearLandsOnOldest | Assets/Scripts/Utils/ClientMovementNetworkTransform.cs:91-99 | With timestamps in order, the remote path's linear branch returns exactly the oldest retained position. |
| RemotePath.RemoteSplineLandsOnSecond | Assets/Scripts/Utils/ClientMovementNetworkTransform.cs:91-99 | With timestamps in order, the remote path's spline branch returns exactly the second-oldest retained position. |
| RemotePath.RemoteSingleSnapshotExtrapolatesBackwards | Assets/Scripts/Utils/ClientMovementNetworkTransform.cs:138-143 | With maxBufferSize ≥ 1 and maxStateAge ≥ 0, when one snapshot remains on the remote path the extrapolation lead is minus the magnitude of the back time b: line 140's Min(b, −b) is −b for b ≥ 0 and b for b < 0, so the lead is never forward. |
| ClientMovement.ShouldSnap | Assets/Scripts/Utils/ClientMovementNetworkTransform.cs:173-176 | Body: the squared distance strictly exceeds the squared snap distance; SnapThresholdIsStrict states the threshold. |
| ClientMovement.NoSnapAtTarget | Assets/Scripts/Utils/ClientMovementNetworkTransform.cs:173-176 | A body already at its target never snaps. |
| ClientMovement.SnapThresholdIsStrict | Assets/Scripts/Utils/ClientMovementNetworkTransform.cs:173-176 | For a snap distance d ≥ 0 and a body at distance e ≥ 0 from its target in any direction (squared distance e²), the body snaps if and only if e > d; exactly d away is smoothed. |
| ClientMovement.ClientMovementNetworkTransform.constructor | Assets/Scripts/Utils/ClientMovementNetworkTransform.cs:60-65 | With maxBufferSize ≥ 1, Awake leaves a history of the single spawn snapshot, an empty velocity buffer and a zero smoothing velocity (the history is the push of that snapshot onto an empty queue). |
| ClientMovement.ClientMovementNetworkTransform.OnInitialize | Assets/Scripts/Utils/ClientMovementNetworkTransform.cs:67-73 | Both queues are cleared and, with maxBufferSize ≥ 1, the history then holds just the current position at now. The capacities are kept. |
| ClientMovement.ClientMovementNetworkTransform.AddStateSnapshot | Assets/Scripts/Utils/ClientMovementNetworkTransform.cs:145-150 | The history becomes the push of the snapshot (see Enqueued). It stays within maxBufferSize, and nothing else changes. |
| ClientMovement.ClientMovementNetworkTransform.PruneOldStates | Assets/Scripts/Utils/ClientMovementNetworkTransform.cs:101-109 | The two dequeue loops leave exactly phase 2 applied to phase 1 of the old history. Nothing else changes. |
| ClientMovement.ClientMovementNetworkTransform.RecordVelocity | Assets/Scripts/Utils/ClientMovementNetworkTransform.cs:152-161 | The velocity buffer becomes WithSample of the old buffer and stays within velocityBufferSize. |
| ClientMovement.ClientMovementNetworkTransform.ComputeAverageVelocity | Assets/Scripts/Utils/ClientMovementNetworkTransform.cs:163-169 | The accumulator loop returns the mean of the buffer: zero when empty, otherwise the sum over the count. |
| ClientMovement.ClientMovementNetworkTransform.InterpolateUsingCatmullRom | Assets/Scripts/Utils/ClientMovementNetworkTransform.cs:122-129 | Returns the spline target over s[0..3] and records the (s[1], s[2]) velocity sample. |
| ClientMovement.ClientMovementNetworkTransform.InterpolateLinearly | Assets/Scripts/Utils/ClientMovementNetworkTransform.cs:131-136 | Returns the lerp target between s[0] and s[1] and records the (s[0], s[1]) velocity sample. |
| ClientMovement.ClientMovementNetworkTransform.ExtrapolateFromLastState | Assets/Scripts/Utils/ClientMovementNetworkTransform.cs:138-143 | Returns the last snapshot projected along the mean velocity for the capped lead, times the multiplier. |
| ClientMovement.ClientMovementNetworkTransform.ComputeTargetPosition | Assets/Scripts/Utils/ClientMovementNetworkTransform.cs:111-120 | Returns the target the strategy ladder picks for the current history. The velocity buffer gets the branch's sample, if any. |
| ClientMovement.ClientMovementNetworkTransform.ApplySmoothedPosition | Assets/Scripts/Utils/ClientMovementNetworkTransform.cs:171-191 | When strictly beyond the snap distance: position = target, the smoothing velocity is zero and the velocity buffer is empty. Otherwise position and smoothing velocity come from SmoothDamp with smoothing time 1/smoothingSpeed, and the buffer is kept. The history is never touched. |
| ClientMovement.ClientMovementNetworkTransform.ProcessOwnerMovement | Assets/Scripts/Utils/ClientMovementNetworkTransform.cs:83-89 | The owner pushes position + velocity·deltaTime, or the position itself without a rigidbody, stamped now. Nothing else changes. |
| ClientMovement.ClientMovementNetworkTransform.ProcessRemoteMovement | Assets/Scripts/Utils/ClientMovementNetworkTransform.cs:91-99 | The history becomes push-then-prune of the incoming position. The target is the ladder's value over it. Position, smoothing velocity and velocity buffer follow the snap-or-smooth rule for that target. |

## Left out

- Vector3.SmoothDamp is a Unity library integrator whose body is not part of this model. It is a function parameter, and the model says only that its result becomes the new position and smoothing velocity.
- The float32 arithmetic and the double-to-float casts (lines 124, 133, 140, 157) are idealised to exact reals. Vector3 is a triple of reals.
- Mathf.InverseLerp, Mathf.Clamp01, Mathf.Min, Vector3.Lerp and sqrMagnitude are modelled by their documented definitions.
- The network clock (NetworkManager's local time) and the frame time (Time.deltaTime) are parameters. One remote update reads the clock once, as `now`, for the interpolation time, the admitted snapshot and the age test.
- GetComponent<Rigidbody>() is an optional velocity parameter. Reading the incoming state (NetworkTransformState.GetPosition) is a position parameter.
- OnNetworkTransformStateUpdated, which only dispatches on IsOwner to the two paths, is not modelled. Neither are OnIsServerAuthoritative or the base-class calls, which are Netcode plumbing.
- The commented-out legacy implementation after line 205 is dead code and is not part of this model.
- The configuration is fixed per component. Sizes are natural numbers: a negative C# count behaves like 0.
- smoothingSpeed must not be zero. The source computes 1f / smoothingSpeed, which in float32 gives infinity for zero, and exact reals give a division by zero no meaning. Negative speeds are allowed, as in the source.
- VelocityEstimator.MeanWithinBounds: shown for the x coordinate only. y and z follow by the same proof.
- ClientMovement.ClientMovementNetworkTransform.ProcessRemoteMovement: states the composed new state. The non-emptiness and in-order properties of that history are separate lemmas (RemotePath), not repeated in its ensures.
