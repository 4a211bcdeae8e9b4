/**
 * The inspector-tunable settings of ClientMovementNetworkTransform. Each replicated entity
 * owns one value of this record; it does not change after spawn.
 */
module Configuration {

  datatype Settings = Settings(
    interpolationBackTime: real,
    smoothingSpeed: real,
    snapDistance: real,
    extrapolationMultiplier: real,
    maxBufferSize: nat,
    maxStateAge: real,
    velocityBufferSize: nat)

  /** The serialized field defaults. */
  const Defaults: Settings := Settings(0.2, 10.0, 5.0, 1.2, 40, 1.0, 5)

  /** Vector3.SmoothDamp is given the smoothing time 1 / smoothingSpeed, so the speed must not be zero. */
  predicate ValidSettings(s: Settings) {
    s.smoothingSpeed != 0.0
  }

  /**
   * The shipped defaults are valid and meet the hypotheses of the remote-path lemmas: room
   * for at least one snapshot, a non-negative maximum age and a non-negative back time.
   */
  lemma DefaultsAreValid()
    ensures ValidSettings(Defaults)
    ensures Defaults.maxBufferSize >= 1 && Defaults.maxStateAge >= 0.0
    ensures Defaults.interpolationBackTime >= 0.0
  {
  }
}
