/** Default settings every channel strip starts from (constants.ts). */
module Constants {
  import opened Types

  /** A setting that leaves the signal untouched: no pan, flat EQ, no bass
      boost, no reverb or delay, no pitch shift, unity speed. */
  predicate Neutral(s: AudioSettings) {
    && s.pan == 0.0
    && s.eqHigh == 0.0 && s.eqMid == 0.0 && s.eqLow == 0.0
    && s.bassBoost == 0.0
    && s.reverb == 0.0 && s.delay == 0.0
    && s.pitch == 0.0
    && s.speed == 1.0
  }

  function DefaultSettings(): (s: AudioSettings)
    ensures WellFormed(s)
    ensures Neutral(s)
    ensures InUiRanges(s)
    ensures s.volume < 0.0
    ensures s.enableDynamics
  {
    AudioSettings(
      volume := -5.0,
      pan := 0.0,
      eqHigh := 0.0,
      eqMid := 0.0,
      eqLow := 0.0,
      bassBoost := 0.0,
      reverb := 0.0,
      delay := 0.0,
      pitch := 0.0,
      speed := 1.0,
      deEsserThresh := -10.0,
      deEsserFreq := 4000.0,
      enableDynamics := true
    )
  }
}
