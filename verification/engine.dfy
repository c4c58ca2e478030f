/** The transport and mixer bookkeeping of the audio engine (class ToneEngine
    in services/ToneEngine.ts): two players, one for the instrumental and one
    for the vocal, each feeding its own channel strip, and a vocal offset in
    seconds. The audio graph itself is not modelled; what is modelled is the
    state every call leaves behind.

    A player is abstracted to whether a buffer is loaded, that buffer's
    duration, whether it is started, and the pair (startAt, position) of its
    last start: from wall-clock time startAt on it plays buffer second
    `position + (t - startAt)`. A player is started from the call of
    `start` until a `stop` takes effect, so a start scheduled in the future
    counts, and so does a buffer that has played out. Tone's `state`, which
    the engine's guards read, says 'started' only from the start time until
    the buffer has played out, as no player loops (`Sounding`). A ramped parameter
    (cancel, then ramp over 0.1 s) is abstracted to the target the ramp reaches. Wall-clock time
    (`Tone.now()`) and the transport position are inputs. */
module Engine {
  import opened Types
  import opened Constants

  /** Seconds between `play` being called and the players starting. */
  const Lookahead: real := 0.1

  datatype Player = Player(
    loaded: bool,
    duration: real,      // seconds of the loaded buffer
    started: bool,
    startAt: real,       // wall-clock time of the last start
    position: real,      // buffer second played at startAt
    playbackRate: real
  )

  /** A parameter written by cancelling scheduled values and ramping. */
  datatype Ramp = Ramp(target: real)

  datatype VocalStrip = VocalStrip(
    volume: Ramp,
    pan: Ramp,
    reverbWet: Ramp,
    delayWet: Ramp,
    deEsserThreshold: Ramp,
    deEsserRatio: Ramp,
    deEsserHighFrequency: real,
    eqHigh: real,
    eqMid: real,
    eqLow: real,
    pitch: real
  )

  datatype InstStrip = InstStrip(
    volume: Ramp,
    pan: Ramp,
    bassBoostGain: Ramp,
    eqHigh: real,
    eqMid: real,
    eqLow: real
  )

  datatype Engine = Engine(
    inst: Player,
    vocal: Player,
    instStrip: InstStrip,
    vocalStrip: VocalStrip,
    offset: real         // seconds the vocal is shifted against the instrumental
  )

  /** A player plays only what it has loaded, and a buffer never lasts a
      negative time. */
  predicate PlayerValid(p: Player) {
    (p.started ==> p.loaded) && p.duration >= 0.0
  }

  predicate Valid(e: Engine) {
    PlayerValid(e.inst) && PlayerValid(e.vocal)
  }

  /** Buffer second a player is at, at wall-clock time t, once started. */
  function PlayheadAt(p: Player, t: real): real {
    p.position + (t - p.startAt)
  }

  /** The two timelines are locked: the vocal's origin lies `offset` seconds
      after the instrumental's. */
  predicate Aligned(e: Engine) {
    e.vocal.startAt - e.vocal.position == e.inst.startAt - e.inst.position + e.offset
  }

  /** Alignment means that at every instant the vocal plays the buffer
      second `offset` behind the instrumental's. */
  lemma AlignedMeansLocked(e: Engine, t: real)
    ensures Aligned(e) <==> PlayheadAt(e.vocal, t) == PlayheadAt(e.inst, t) - e.offset
  {
  }

  /** The player was started and its start time has come by t. A start
      scheduled after t is pending. */
  predicate Begun(p: Player, t: real) {
    p.started && p.startAt <= t
  }

  /** By t the player has played the rest of its buffer, from `position`
      to `duration` at `playbackRate` buffer seconds per second. */
  predicate PlayedOut(p: Player, t: real) {
    p.playbackRate > 0.0 && p.startAt + (p.duration - p.position) / p.playbackRate <= t
  }

  /** Tone's `state === 'started'` at wall-clock time t: the start time has
      come and the buffer has not played out. Before the start time and
      after the end the player reads as stopped. */
  predicate Sounding(p: Player, t: real) {
    Begun(p, t) && !PlayedOut(p, t)
  }

  /** No start of either player is still pending at time t. */
  predicate Reached(e: Engine, t: real) {
    (e.inst.started ==> e.inst.startAt <= t) && (e.vocal.started ==> e.vocal.startAt <= t)
  }

  /** Two players hold the same buffer and play it at the same rate. */
  predicate SameBuffer(p: Player, q: Player) {
    p.loaded == q.loaded && p.duration == q.duration && p.playbackRate == q.playbackRate
  }

  // ---------------------------------------------------------------------------
  // Player primitives (Tone.Player, whose source is not part of this model)

  function EmptyPlayer(): (p: Player)
    ensures PlayerValid(p) && !p.loaded && !p.started
  {
    Player(false, 0.0, false, 0.0, 0.0, 1.0)
  }

  /** `start(time, offset)`: (re)start at wall-clock `time` from buffer
      second `offset`. */
  function Start(p: Player, time: real, offset: real): Player {
    p.(started := true, startAt := time, position := offset)
  }

  /** `stop()`: silences the player and cancels a start still pending. */
  function Halt(p: Player): Player {
    p.(started := false)
  }

  /** `seek(offset)` on a sounding player restarts it now from `offset`. */
  function Jump(p: Player, now: real, offset: real): Player {
    p.(startAt := now, position := offset)
  }

  // ---------------------------------------------------------------------------
  // Operations

  /** The constructor: nothing loaded, offset 0, both channels at -5 dB and
      centred, reverb, delay and bass boost dry, flat EQ, no pitch shift, and
      the de-esser's high band at 4 kHz with ratio 6 and threshold -24 dB. */
  function Init(): (e: Engine)
    ensures Valid(e)
    ensures !e.inst.loaded && !e.vocal.loaded
    ensures e.offset == 0.0
    ensures GetMaxDuration(e) == 0.0
  {
    Engine(
      EmptyPlayer(),
      EmptyPlayer(),
      InstStrip(Ramp(-5.0), Ramp(0.0), Ramp(0.0), 0.0, 0.0, 0.0),
      VocalStrip(Ramp(-5.0), Ramp(0.0), Ramp(0.0), Ramp(0.0), Ramp(-24.0), Ramp(6.0), 4000.0, 0.0, 0.0, 0.0, 0.0),
      0.0)
  }

  /** `loadTrack`: the player of the given strip holds a buffer of the given
      duration afterwards; whether it is started, its last start and its
      rate are not changed. */
  function Load(e: Engine, t: TrackType, duration: real): (r: Engine)
    requires duration >= 0.0
    ensures Valid(e) ==> Valid(r)
    ensures t == Instrumental ==> r.inst.loaded && r.inst.duration == duration && r.vocal == e.vocal
    ensures t == Vocal ==> r.vocal.loaded && r.vocal.duration == duration && r.inst == e.inst
    ensures t == Instrumental ==> r.inst == e.inst.(loaded := true, duration := duration)
    ensures t == Vocal ==> r.vocal == e.vocal.(loaded := true, duration := duration)
    ensures r.offset == e.offset && r.instStrip == e.instStrip && r.vocalStrip == e.vocalStrip
  {
    match t
    case Instrumental => e.(inst := e.inst.(loaded := true, duration := duration))
    case Vocal => e.(vocal := e.vocal.(loaded := true, duration := duration))
  }

  /** Seconds the vocal starts after the instrumental when `play` is called
      at `currentTime`: the part of the offset not yet played. */
  function VocalDelay(e: Engine, currentTime: real): (d: real)
    ensures d >= 0.0
    ensures d == 0.0 <==> currentTime - e.offset >= 0.0
  {
    if currentTime - e.offset >= 0.0 then 0.0 else e.offset - currentTime
  }

  /** `play(currentTime)`: each loaded player starts `Lookahead` seconds
      from now. The instrumental starts at `currentTime`; the vocal at
      `currentTime - offset` when that is not negative, and otherwise from
      its beginning, late by the missing seconds. */
  function Play(e: Engine, now: real, currentTime: real): (r: Engine)
    ensures Valid(e) ==> Valid(r)
    ensures !e.inst.loaded ==> r.inst == e.inst
    ensures !e.vocal.loaded ==> r.vocal == e.vocal
    ensures e.inst.loaded ==>
      r.inst.started && r.inst.startAt == now + Lookahead && r.inst.position == currentTime
    ensures e.vocal.loaded ==>
      && r.vocal.started
      && r.vocal.position == (if currentTime - e.offset >= 0.0 then currentTime - e.offset else 0.0)
      && r.vocal.position >= 0.0
      && r.vocal.startAt == now + Lookahead + VocalDelay(e, currentTime)
      && r.vocal.startAt - r.vocal.position == now + Lookahead - currentTime + e.offset
    ensures SameBuffer(r.inst, e.inst) && SameBuffer(r.vocal, e.vocal)
    ensures r.offset == e.offset && r.instStrip == e.instStrip && r.vocalStrip == e.vocalStrip
  {
    var at := now + Lookahead;
    var inst := if e.inst.loaded then Start(e.inst, at, currentTime) else e.inst;
    var vocalSeekTime := currentTime - e.offset;
    var vocal :=
      if !e.vocal.loaded then e.vocal
      else if vocalSeekTime >= 0.0 then Start(e.vocal, at, vocalSeekTime)
      else Start(e.vocal, at + -vocalSeekTime, 0.0);
    e.(inst := inst, vocal := vocal)
  }

  /** With both players loaded, `play` locks the two timelines, whichever
      branch the vocal takes. */
  lemma PlayAligns(e: Engine, now: real, currentTime: real)
    requires e.inst.loaded && e.vocal.loaded
    ensures Aligned(Play(e, now, currentTime))
  {
  }

  /** The starts `play` schedules have all come at time t exactly when t is
      at least the lookahead after the call, and for a loaded vocal also
      its delay. */
  lemma PlayStartsReached(e: Engine, now: real, currentTime: real, t: real)
    requires Valid(e)
    ensures Reached(Play(e, now, currentTime), t) <==>
      && (e.inst.loaded ==> now + Lookahead <= t)
      && (e.vocal.loaded ==> now + Lookahead + VocalDelay(e, currentTime) <= t)
  {
  }

  /** `pause()`: every player whose state reads 'started' at `now` stops. A
      start still pending is left scheduled. A player whose buffer has
      played out already reads 'stopped'; its flag is cleared as well, which
      changes nothing audible. */
  function Pause(e: Engine, now: real): (r: Engine)
    ensures Valid(e) ==> Valid(r)
    ensures r.inst.started <==> e.inst.started && now < e.inst.startAt
    ensures r.vocal.started <==> e.vocal.started && now < e.vocal.startAt
    ensures !Sounding(r.inst, now) && !Sounding(r.vocal, now)
    ensures Same(r.inst, e.inst) && Same(r.vocal, e.vocal)
    ensures r.offset == e.offset && r.instStrip == e.instStrip && r.vocalStrip == e.vocalStrip
  {
    var inst := if Begun(e.inst, now) then Halt(e.inst) else e.inst;
    var vocal := if Begun(e.vocal, now) then Halt(e.vocal) else e.vocal;
    e.(inst := inst, vocal := vocal)
  }

  /** Two players agree on everything but whether they are started. */
  predicate Same(p: Player, q: Player) {
    p.(started := false) == q.(started := false)
  }

  /** `stop()`: pause, then stop both players unconditionally, which also
      cancels pending starts. Nothing is rewound. */
  function Stop(e: Engine, now: real): (r: Engine)
    ensures Valid(e) ==> Valid(r)
    ensures r.inst == e.inst.(started := false) && r.vocal == e.vocal.(started := false)
    ensures r.offset == e.offset && r.instStrip == e.instStrip && r.vocalStrip == e.vocalStrip
  {
    var p := Pause(e, now);
    p.(inst := Halt(p.inst), vocal := Halt(p.vocal))
  }

  /** `stop` leaves the same state as `pause` exactly when no start is
      pending; a second `pause` or `stop` changes nothing. */
  lemma StopIsPause(e: Engine, now: real)
    ensures Stop(e, now) == Pause(e, now) <==> Reached(e, now)
    ensures Pause(Pause(e, now), now) == Pause(e, now)
    ensures Stop(Stop(e, now), now) == Stop(e, now)
  {
    if Stop(e, now) == Pause(e, now) {
      assert !Pause(e, now).inst.started && !Pause(e, now).vocal.started;
    }
  }

  /** A pause soon after `play` leaves a delayed vocal scheduled: with the
      vocal 1 s behind, a pause 0.5 s after `play(0)` stops the instrumental,
      while the vocal still enters from its beginning at now + 1.1 and then
      plays alone. */
  lemma PauseLeavesPendingVocal(e: Engine, now: real)
    requires e.inst.loaded && e.vocal.loaded && e.offset == 1.0
    ensures var r := Pause(Play(e, now, 0.0), now + 0.5);
      && !r.inst.started
      && r.vocal.started && r.vocal.startAt == now + 1.1 && r.vocal.position == 0.0
  {
  }

  /** `seek(time)`: a player moves only if it is loaded and its state reads
      'started', so neither a pending start nor a played-out buffer moves;
      the instrumental to `time`, the vocal to `time - offset`,
      and the vocal only when that is not negative. */
  function Seek(e: Engine, now: real, time: real): (r: Engine)
    ensures Valid(e) ==> Valid(r)
    ensures e.inst.loaded && Sounding(e.inst, now) ==> r.inst.startAt == now && r.inst.position == time
    ensures !(e.inst.loaded && Sounding(e.inst, now)) ==> r.inst == e.inst
    ensures e.vocal.loaded && Sounding(e.vocal, now) && time - e.offset >= 0.0 ==>
      r.vocal.startAt == now && r.vocal.position == time - e.offset
    ensures !(e.vocal.loaded && Sounding(e.vocal, now) && time - e.offset >= 0.0) ==> r.vocal == e.vocal
    ensures r.inst.started == e.inst.started && r.vocal.started == e.vocal.started
    ensures SameBuffer(r.inst, e.inst) && SameBuffer(r.vocal, e.vocal)
    ensures r.offset == e.offset && r.instStrip == e.instStrip && r.vocalStrip == e.vocalStrip
  {
    var inst := if e.inst.loaded && Sounding(e.inst, now) then Jump(e.inst, now, time) else e.inst;
    var vocalSeekTime := time - e.offset;
    var vocal :=
      if e.vocal.loaded && Sounding(e.vocal, now) && vocalSeekTime >= 0.0 then Jump(e.vocal, now, vocalSeekTime)
      else e.vocal;
    e.(inst := inst, vocal := vocal)
  }

  /** Seeking two sounding players to a time at or past the offset keeps
      them locked. */
  lemma SeekKeepsAlignment(e: Engine, now: real, time: real)
    requires e.inst.loaded && Sounding(e.inst, now) && e.vocal.loaded && Sounding(e.vocal, now)
    requires time - e.offset >= 0.0
    ensures Aligned(Seek(e, now, time))
  {
  }

  /** A seek that does not move the vocal, because the target is before the
      vocal's entry, the vocal's start is still pending or its buffer has
      played out, moves the
      sounding instrumental alone: two locked players stay locked exactly
      when the seek did not move the instrumental's origin. */
  lemma SeekBeforeVocalEntry(e: Engine, now: real, time: real)
    requires e.inst.loaded && Sounding(e.inst, now)
    requires !(e.vocal.loaded && Sounding(e.vocal, now) && time - e.offset >= 0.0)
    requires Aligned(e)
    ensures Seek(e, now, time).vocal == e.vocal
    ensures Aligned(Seek(e, now, time)) <==> now - time == e.inst.startAt - e.inst.position
  {
  }

  /** A seek while a delayed vocal is still pending breaks the lock: with
      the vocal 1 s behind, `seek(3)` 0.5 s after `play(0)` moves the
      instrumental to 3, while the vocal still enters from 0 at now + 1.1
      instead of from 2. */
  lemma SeekWhileVocalPending(e: Engine, now: real)
    requires e.inst.loaded && e.vocal.loaded && e.offset == 1.0
    requires e.inst.playbackRate > 0.0 && e.inst.duration > 0.4 * e.inst.playbackRate
    ensures var r := Seek(Play(e, now, 0.0), now + 0.5, 3.0);
      && r.inst.startAt == now + 0.5 && r.inst.position == 3.0
      && r.vocal.startAt == now + 1.1 && r.vocal.position == 0.0
      && !Aligned(r)
  {
    var p := Play(e, now, 0.0);
    assert (p.inst.duration - p.inst.position) / p.inst.playbackRate > 0.4 by {
      DivAbove(p.inst.duration, p.inst.playbackRate, 0.4);
    }
  }

  /** A seek after a short take has played out moves the instrumental alone:
      with a 30 s vocal under a 180 s instrumental, both at normal speed and
      offset 0, `seek(10)` 60 s after `play(0)` at time 0 moves the
      instrumental to 10, while the vocal stays silent. */
  lemma SeekAfterVocalEnded(e: Engine)
    requires e.inst.loaded && e.vocal.loaded && e.offset == 0.0
    requires e.inst.duration == 180.0 && e.vocal.duration == 30.0
    requires e.inst.playbackRate == 1.0 && e.vocal.playbackRate == 1.0
    ensures var p := Play(e, 0.0, 0.0);
      var r := Seek(p, 60.0, 10.0);
      && Sounding(p.inst, 60.0) && PlayedOut(p.vocal, 60.0)
      && r.inst.startAt == 60.0 && r.inst.position == 10.0
      && r.vocal == p.vocal
      && !Aligned(r)
  {
  }

  /** x / m exceeds b when x exceeds b * m, for a positive m. */
  lemma DivAbove(x: real, m: real, b: real)
    requires m > 0.0 && x > b * m
    ensures x / m > b
  {
    assert x / m * m == x;
  }

  /** `setVocalOffset(seconds)`: the offset is always stored; an
      instrumental whose state reads 'started' (its start has come and its
      buffer has not played out) makes the engine stop and play again from `transportPosition`, the instrumental player's
      reading of the transport position, which is an input here. */
  function SetVocalOffset(e: Engine, seconds: real, now: real, transportPosition: real): (r: Engine)
    ensures Valid(e) ==> Valid(r)
    ensures r.offset == seconds
    ensures !Sounding(e.inst, now) ==> r.inst == e.inst && r.vocal == e.vocal
    ensures Sounding(e.inst, now) && e.inst.loaded ==>
      r.inst.started && r.inst.position == transportPosition && r.inst.startAt == now + Lookahead
    ensures Sounding(e.inst, now) && e.vocal.loaded ==>
      && r.vocal.started
      && r.vocal.position == (if transportPosition - seconds >= 0.0 then transportPosition - seconds else 0.0)
      && r.vocal.startAt == now + Lookahead + VocalDelay(e.(offset := seconds), transportPosition)
    ensures Sounding(e.inst, now) && !e.vocal.loaded ==> !r.vocal.started
    ensures SameBuffer(r.inst, e.inst) && SameBuffer(r.vocal, e.vocal)
    ensures r.instStrip == e.instStrip && r.vocalStrip == e.vocalStrip
  {
    var shifted := e.(offset := seconds);
    if Sounding(e.inst, now) then Play(Stop(shifted, now), now, transportPosition) else shifted
  }

  /** After a new offset with the instrumental sounding and both tracks
      loaded, the players are locked at the new offset. */
  lemma SetVocalOffsetAligns(e: Engine, seconds: real, now: real, transportPosition: real)
    requires Sounding(e.inst, now) && e.inst.loaded && e.vocal.loaded
    ensures Aligned(SetVocalOffset(e, seconds, now, transportPosition))
  {
  }

  /** While the instrumental does not sound, because it is stopped, its
      start is still pending or its buffer has played out, a new offset
      restarts nothing, so locked players stay locked only if the offset
      did not change. */
  lemma SetVocalOffsetWhileSilent(e: Engine, seconds: real, now: real, transportPosition: real)
    requires !Sounding(e.inst, now)
    requires Aligned(e)
    ensures var r := SetVocalOffset(e, seconds, now, transportPosition);
      && r.inst == e.inst && r.vocal == e.vocal
      && (Aligned(r) <==> seconds == e.offset)
  {
  }

  /** A new offset after the instrumental has played out restarts nothing:
      with a 30 s instrumental at normal speed played from 0 at time 0,
      `setVocalOffset(2)` at time 60 leaves both players as they were. */
  lemma OffsetIgnoredAfterEnd(e: Engine, transportPosition: real)
    requires e.inst.loaded && e.inst.duration == 30.0 && e.inst.playbackRate == 1.0
    ensures var p := Play(e, 0.0, 0.0);
      var r := SetVocalOffset(p, 2.0, 60.0, transportPosition);
      && PlayedOut(p.inst, 60.0)
      && r.inst == p.inst && r.vocal == p.vocal && r.offset == 2.0
  {
  }

  /** `updateSettings('vocal', s)`: every ramped parameter of the vocal
      strip targets the value written; with dynamics on the de-esser's
      high band takes the given threshold and frequency and ratio 6, with
      dynamics off it is bypassed (threshold 0, ratio 1) and its frequency
      is left as it was. */
  function UpdateVocal(strip: VocalStrip, s: AudioSettings): VocalStrip {
    var dynamics :=
      if s.enableDynamics then
        strip.(deEsserHighFrequency := s.deEsserFreq,
               deEsserThreshold := Ramp(s.deEsserThresh), deEsserRatio := Ramp(6.0))
      else
        strip.(deEsserThreshold := Ramp(0.0), deEsserRatio := Ramp(1.0));
    dynamics.(volume := Ramp(s.volume), pan := Ramp(s.pan),
              eqHigh := s.eqHigh, eqMid := s.eqMid, eqLow := s.eqLow,
              reverbWet := Ramp(s.reverb), delayWet := Ramp(s.delay), pitch := s.pitch)
  }

  function UpdateInst(strip: InstStrip, s: AudioSettings): InstStrip {
    strip.(volume := Ramp(s.volume), pan := Ramp(s.pan),
           eqHigh := s.eqHigh, eqMid := s.eqMid, eqLow := s.eqLow,
           bassBoostGain := Ramp(s.bassBoost))
  }

  /** The strip of the given kind carries the settings: every parameter
      the engine writes targets the settings' value. */
  predicate Carries(e: Engine, t: TrackType, s: AudioSettings) {
    match t
    case Vocal =>
      && e.vocalStrip.volume.target == s.volume && e.vocalStrip.pan.target == s.pan
      && e.vocalStrip.reverbWet.target == s.reverb && e.vocalStrip.delayWet.target == s.delay
      && e.vocalStrip.eqHigh == s.eqHigh && e.vocalStrip.eqMid == s.eqMid && e.vocalStrip.eqLow == s.eqLow
      && e.vocalStrip.pitch == s.pitch && e.vocal.playbackRate == s.speed
      && (s.enableDynamics ==>
            && e.vocalStrip.deEsserThreshold.target == s.deEsserThresh
            && e.vocalStrip.deEsserRatio.target == 6.0
            && e.vocalStrip.deEsserHighFrequency == s.deEsserFreq)
      && (!s.enableDynamics ==>
            e.vocalStrip.deEsserThreshold.target == 0.0 && e.vocalStrip.deEsserRatio.target == 1.0)
    case Instrumental =>
      && e.instStrip.volume.target == s.volume && e.instStrip.pan.target == s.pan
      && e.instStrip.eqHigh == s.eqHigh && e.instStrip.eqMid == s.eqMid && e.instStrip.eqLow == s.eqLow
      && e.instStrip.bassBoostGain.target == s.bassBoost && e.inst.playbackRate == s.speed
  }

  /** `updateSettings(type, s)`. The playback rate lives on the player. */
  function UpdateSettings(e: Engine, t: TrackType, s: AudioSettings): (r: Engine)
    ensures Carries(r, t, s)
    ensures Valid(e) ==> Valid(r)
    ensures t == Vocal ==> r.inst == e.inst && r.instStrip == e.instStrip
    ensures t == Vocal && !s.enableDynamics ==>
      r.vocalStrip.deEsserHighFrequency == e.vocalStrip.deEsserHighFrequency
    ensures t == Instrumental ==> r.vocal == e.vocal && r.vocalStrip == e.vocalStrip
    ensures r.inst.(playbackRate := 1.0) == e.inst.(playbackRate := 1.0)
    ensures r.vocal.(playbackRate := 1.0) == e.vocal.(playbackRate := 1.0)
    ensures r.offset == e.offset
  {
    match t
    case Vocal =>
      e.(vocalStrip := UpdateVocal(e.vocalStrip, s), vocal := e.vocal.(playbackRate := s.speed))
    case Instrumental =>
      e.(instStrip := UpdateInst(e.instStrip, s), inst := e.inst.(playbackRate := s.speed))
  }

  /** Writing the same settings twice is writing them once. */
  lemma UpdateSettingsIdempotent(e: Engine, t: TrackType, s: AudioSettings)
    ensures UpdateSettings(UpdateSettings(e, t, s), t, s) == UpdateSettings(e, t, s)
  {
  }

  /** The last write wins, except for the de-esser frequency, which a write
      with dynamics off leaves at whatever an earlier write set. */
  lemma UpdateSettingsLastWins(e: Engine, t: TrackType, s1: AudioSettings, s2: AudioSettings)
    ensures var r1 := UpdateSettings(UpdateSettings(e, t, s1), t, s2);
      var r2 := UpdateSettings(e, t, s2);
      && (t == Instrumental || s2.enableDynamics ==> r1 == r2)
      && (t == Vocal && !s2.enableDynamics ==>
            && r1.vocalStrip.deEsserHighFrequency ==
                 (if s1.enableDynamics then s1.deEsserFreq else e.vocalStrip.deEsserHighFrequency)
            && r1.(vocalStrip := r1.vocalStrip.(deEsserHighFrequency := 0.0))
               == r2.(vocalStrip := r2.vocalStrip.(deEsserHighFrequency := 0.0)))
  {
  }

  /** Updates to the two strips commute. */
  lemma UpdatesCommute(e: Engine, si: AudioSettings, sv: AudioSettings)
    ensures UpdateSettings(UpdateSettings(e, Instrumental, si), Vocal, sv)
         == UpdateSettings(UpdateSettings(e, Vocal, sv), Instrumental, si)
  {
  }

  /** `getMaxDuration()`: the longer of the loaded buffers, an unloaded
      player counting as 0. */
  function GetMaxDuration(e: Engine): (d: real)
    ensures e.inst.loaded ==> d >= e.inst.duration
    ensures e.vocal.loaded ==> d >= e.vocal.duration
    ensures d == 0.0 || (e.inst.loaded && d == e.inst.duration) || (e.vocal.loaded && d == e.vocal.duration)
    ensures Valid(e) ==> d >= 0.0
  {
    var instDur := if e.inst.loaded then e.inst.duration else 0.0;
    var vocDur := if e.vocal.loaded then e.vocal.duration else 0.0;
    if instDur >= vocDur then instDur else vocDur
  }

  /** The duration depends on the loaded buffers only: neither the offset
      nor the transport calls change it. */
  lemma MaxDurationIgnoresTransport(e: Engine, seconds: real, now: real, time: real)
    ensures GetMaxDuration(e.(offset := seconds)) == GetMaxDuration(e)
    ensures GetMaxDuration(Play(e, now, time)) == GetMaxDuration(e)
    ensures GetMaxDuration(Pause(e, now)) == GetMaxDuration(e)
    ensures GetMaxDuration(Stop(e, now)) == GetMaxDuration(e)
    ensures GetMaxDuration(Seek(e, now, time)) == GetMaxDuration(e)
    ensures GetMaxDuration(SetVocalOffset(e, seconds, now, time)) == GetMaxDuration(e)
  {
  }

  /** The defaults have dynamics enabled, so applying them to the vocal
      strip takes the de-esser's enabled branch. Applied to a fresh engine
      they change nothing on the instrumental strip and, on the vocal
      strip, only the de-esser threshold, from -24 dB to -10 dB. */
  lemma DefaultsOnFreshEngine()
    ensures Carries(UpdateSettings(Init(), Vocal, DefaultSettings()), Vocal, DefaultSettings())
    ensures UpdateSettings(Init(), Vocal, DefaultSettings()).vocalStrip
         == Init().vocalStrip.(deEsserThreshold := Ramp(-10.0))
    ensures UpdateSettings(Init(), Instrumental, DefaultSettings()) == Init()
  {
    var d := DefaultSettings();
    var e := Init();
    assert d == AudioSettings(-5.0, 0.0, 0.0, 0.0, 0.0, 0.0, 0.0, 0.0, 0.0, 1.0, -10.0, 4000.0, true);
    assert UpdateVocal(e.vocalStrip, d) == e.vocalStrip.(deEsserThreshold := Ramp(-10.0));
    assert UpdateInst(e.instStrip, d) == e.instStrip;
  }
}
