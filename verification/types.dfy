/** Shared value types of the mixer: track kinds, per-track audio settings
    and the music player's play modes (types.ts). */
module Types {

  /** Which of the two channel strips a track belongs to. */
  datatype TrackType = Instrumental | Vocal

  /** Playback mode of the music player's queue. */
  datatype PlayMode = Normal | Repeat | Shuffle

  /** Per-track settings, applied by value to a channel strip. Numbers are
      IEEE doubles in the source; they are reals here. */
  datatype AudioSettings = AudioSettings(
    volume: real,         // dB
    pan: real,
    eqHigh: real,
    eqMid: real,
    eqLow: real,
    bassBoost: real,
    reverb: real,         // wet/dry
    delay: real,          // wet/dry
    pitch: real,          // semitones
    speed: real,          // playback rate
    deEsserThresh: real,  // dB
    deEsserFreq: real,    // Hz
    enableDynamics: bool
  )

  predicate InRange(x: real, lo: real, hi: real) {
    lo <= x <= hi
  }

  /** The documented range of every numeric field, as written beside the
      field declarations. */
  predicate WellFormed(s: AudioSettings) {
    && InRange(s.volume, -60.0, 0.0)
    && InRange(s.pan, -1.0, 1.0)
    && InRange(s.eqHigh, -10.0, 10.0)
    && InRange(s.eqMid, -10.0, 10.0)
    && InRange(s.eqLow, -10.0, 10.0)
    && InRange(s.bassBoost, 0.0, 10.0)
    && InRange(s.reverb, 0.0, 1.0)
    && InRange(s.delay, 0.0, 1.0)
    && InRange(s.pitch, -12.0, 12.0)
    && InRange(s.speed, 0.5, 2.0)
    && InRange(s.deEsserThresh, -60.0, 0.0)
    && InRange(s.deEsserFreq, 2000.0, 10000.0)
  }

  /** The ranges the mixer's knobs actually allow for bass boost and speed,
      which differ from the documented ones. */
  predicate InUiRanges(s: AudioSettings) {
    InRange(s.bassBoost, 0.0, 20.0) && InRange(s.speed, 0.5, 1.5)
  }

  /** A track type is one of exactly two kinds. */
  lemma TrackTypeCases(t: TrackType)
    ensures t == Instrumental || t == Vocal
  {
  }

  /** A play mode is one of exactly three kinds. */
  lemma PlayModeCases(m: PlayMode)
    ensures m == Normal || m == Repeat || m == Shuffle
  {
  }

  /** The bass-boost knob can reach values outside the documented range,
      while every speed the knob allows is documented. */
  lemma UiRangesVersusDocumented(s: AudioSettings)
    requires WellFormed(s)
    ensures InRange(s.speed, 0.5, 1.5) ==> InUiRanges(s)
    ensures !WellFormed(s.(bassBoost := 20.0))
    ensures InUiRanges(s.(speed := 1.0)) && InUiRanges(s.(speed := 1.0, bassBoost := 20.0))
  {
  }
}
