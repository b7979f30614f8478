/**
 * The detector's configuration: the numeric fields of the session's
 * `DetectionConfig` record. It is fixed for the lifetime of a detector.
 */
module Config {

  /**
   * Thresholds are compared against the per-frame eye and mouth aspect
   * ratios; the frame counts and the alert window are plain integers, as in
   * the source, which does not check that they are positive.
   */
  datatype DetectionConfig = DetectionConfig(
    earThreshold: real,
    earConsecFrames: int,
    marThreshold: real,
    marConsecFrames: int,
    alertWindowSeconds: int,
    alertRepeatCount: int)
  {
    /** The alert window, in seconds, as the value timestamps are compared with. */
    function Window(): real {
      alertWindowSeconds as real
    }
  }

  /** The record's default values. */
  const Default := DetectionConfig(0.23, 20, 0.7, 15, 600, 3)
}
