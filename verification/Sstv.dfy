/** The sample rate and the line of the receiver's only mode. */
module Sstv {
  const SAMPLE_RATE := 44100

  /** The samples of one line at the nominal rate. */
  const LINE_SAMPLES: int := (SAMPLE_RATE as real * ((1.5 * 3.0 + 138.24 * 3.0 + 9.0) / 1000.0)).Floor
  const MIN_SYNC_GAP: int := (SAMPLE_RATE as real * (420.0 / 1000.0)).Floor
  const SYNC_WINDOW_PCT := 0.12
}
