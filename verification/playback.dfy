/** The mixer screen's transport state in App.tsx: whether it plays,
    records or exports, the displayed playhead and the session length, and
    the engine underneath. Covered here are the play/pause button
    (`togglePlay`), the record button (`handleRecordToggle`) and the 50 ms
    playback tick that advances the playhead. Wall-clock readings are
    inputs: `now` is `Tone.now()` and a tick's `elapsed` is the playhead
    time `(Date.now() - start) / 1000` it computed.

    The engine's `pause` halts only players whose start time has come, so
    the play flag and the engine agree after a pause only when no start is
    still pending (`Engine.Reached`). */
module Playback {
  import opened Types
  import opened JsMath
  import Engine

  datatype Mixer = Mixer(
    isPlaying: bool,
    isRecording: bool,
    isExporting: bool,
    currentTime: real,     // displayed playhead, in seconds
    duration: real,        // session length, in seconds
    exportProgress: real,  // percent shown while exporting
    engine: Engine.Engine
  )

  /** Both engine players are stopped. */
  predicate Silent(e: Engine.Engine) {
    !e.inst.started && !e.vocal.started
  }

  /** Outside an export, the engine is silent whenever the play flag is
      down. */
  predicate Settled(m: Mixer) {
    !m.isPlaying && !m.isExporting ==> Silent(m.engine)
  }

  // ---------------------------------------------------------------------------
  // The playback tick

  /** The tick runs only while playing and not exporting. */
  predicate Ticking(m: Mixer) {
    m.isPlaying && !m.isExporting
  }

  /** One tick of the playback sync loop, at wall-clock time `now`. While
      recording the playhead follows the clock and the session grows to
      cover it; otherwise the playhead follows the clock until it reaches a
      positive session length, where playback stops on the last second and
      the engine pauses. */
  function Tick(m: Mixer, elapsed: real, now: real): (r: Mixer)
    ensures !Ticking(m) ==> r == m
    ensures Ticking(m) && m.isRecording ==>
      r == m.(duration := Max(m.duration, elapsed), currentTime := elapsed)
    ensures Ticking(m) && !m.isRecording && elapsed >= m.duration > 0.0 ==>
      r == m.(isPlaying := false, currentTime := m.duration, engine := Engine.Pause(m.engine, now))
    ensures Ticking(m) && !m.isRecording && !(elapsed >= m.duration > 0.0) ==>
      r == m.(currentTime := elapsed)
    ensures r.duration >= m.duration
    ensures r.isRecording == m.isRecording && r.isExporting == m.isExporting
  {
    if !Ticking(m) then m
    else if m.isRecording then
      m.(duration := Max(m.duration, elapsed), currentTime := elapsed)
    else if elapsed >= m.duration && m.duration > 0.0 then
      m.(isPlaying := false, currentTime := m.duration, engine := Engine.Pause(m.engine, now))
    else m.(currentTime := elapsed)
  }

  /** Outside a recording, the playhead never passes a positive session
      length once a tick has run. */
  predicate Bounded(m: Mixer) {
    !m.isRecording && m.duration > 0.0 && m.isPlaying ==> m.currentTime < m.duration
  }

  /** What one tick reads: the playhead time it computed and the engine's
      clock. */
  datatype Reading = Reading(elapsed: real, now: real)

  /** Ticks apply in order. */
  function Ticks(m: Mixer, ticks: seq<Reading>): Mixer
    decreases |ticks|
  {
    if |ticks| == 0 then m else Ticks(Tick(m, ticks[0].elapsed, ticks[0].now), ticks[1..])
  }

  /** Every tick outside a recording leaves the playhead bounded, and a
      bounded state stays bounded. The tick that stops playback at the end
      leaves the engine silent exactly when no start is pending then. */
  lemma TickBounds(m: Mixer, elapsed: real, now: real)
    ensures Ticking(m) ==> Bounded(Tick(m, elapsed, now))
    ensures Bounded(m) ==> Bounded(Tick(m, elapsed, now))
    ensures Settled(m) && Engine.Reached(m.engine, now) ==> Settled(Tick(m, elapsed, now))
    ensures Ticking(m) && !m.isRecording && elapsed >= m.duration > 0.0 ==>
      (Settled(Tick(m, elapsed, now)) <==> Engine.Reached(m.engine, now))
  {
  }

  /** A tick only ever stops players, so a time by which every start has
      come stays such a time. */
  lemma TickKeepsReached(m: Mixer, elapsed: real, now: real, t: real)
    requires Engine.Reached(m.engine, t)
    ensures Engine.Reached(Tick(m, elapsed, now).engine, t)
  {
  }

  /** Over any run of ticks the session length never shrinks, the
      playhead stays bounded, and the engine state stays valid; the play
      flag and the engine stay in step when no tick comes while a start is
      pending. */
  lemma {:induction false} TicksKeep(m: Mixer, ticks: seq<Reading>)
    requires Bounded(m)
    ensures var r := Ticks(m, ticks);
      && r.duration >= m.duration && Bounded(r)
      && (Settled(m) && (forall i :: 0 <= i < |ticks| ==> Engine.Reached(m.engine, ticks[i].now)) ==> Settled(r))
      && (Engine.Valid(m.engine) ==> Engine.Valid(r.engine))
    decreases |ticks|
  {
    if |ticks| > 0 {
      var m1 := Tick(m, ticks[0].elapsed, ticks[0].now);
      TickBounds(m, ticks[0].elapsed, ticks[0].now);
      TicksKeep(m1, ticks[1..]);
      if Settled(m) && (forall i :: 0 <= i < |ticks| ==> Engine.Reached(m.engine, ticks[i].now)) {
        forall i | 0 <= i < |ticks[1..]|
          ensures Engine.Reached(m1.engine, ticks[1..][i].now)
        {
          assert ticks[1..][i] == ticks[i + 1];
          TickKeepsReached(m, ticks[0].elapsed, ticks[0].now, ticks[i + 1].now);
        }
      }
    }
  }

  /** While recording the session grows to cover every tick's time: the
      final length is at least every time ticked and the playhead is the
      last one. */
  lemma {:induction false} RecordingCoversTicks(m: Mixer, ticks: seq<Reading>)
    requires Ticking(m) && m.isRecording
    ensures var r := Ticks(m, ticks);
      && Ticking(r) && r.isRecording
      && r.duration >= m.duration
      && (forall i :: 0 <= i < |ticks| ==> r.duration >= ticks[i].elapsed)
      && (|ticks| > 0 ==> r.currentTime == ticks[|ticks| - 1].elapsed)
      && (|ticks| == 0 ==> r == m)
    decreases |ticks|
  {
    if |ticks| > 0 {
      var m1 := Tick(m, ticks[0].elapsed, ticks[0].now);
      RecordingCoversTicks(m1, ticks[1..]);
      var r := Ticks(m1, ticks[1..]);
      assert r == Ticks(m, ticks);
      forall i | 0 <= i < |ticks|
        ensures r.duration >= ticks[i].elapsed
      {
        if i > 0 {
          assert ticks[i] == ticks[1..][i - 1];
        }
      }
      if |ticks| > 1 {
        assert ticks[1..][|ticks[1..]| - 1] == ticks[|ticks| - 1];
      }
    }
  }

  /** Once a tick has stopped playback at the end, later ticks change
      nothing. */
  lemma {:induction false} StoppedStaysStopped(m: Mixer, ticks: seq<Reading>)
    requires !m.isPlaying
    ensures Ticks(m, ticks) == m
    decreases |ticks|
  {
    if |ticks| > 0 {
      StoppedStaysStopped(Tick(m, ticks[0].elapsed, ticks[0].now), ticks[1..]);
    }
  }

  // ---------------------------------------------------------------------------
  // The record and play buttons

  /** `handleRecordToggle()`. Stopping stops the engine and both flags,
      then loads the take as the vocal (`recordedDuration` seconds long)
      and sets the session length to the longer buffer. Starting needs the
      microphone: without it nothing changes; with it the engine plays
      from the playhead and both flags rise. */
  function RecordToggle(m: Mixer, now: real, micOk: bool, recordedDuration: real): (r: Mixer)
    requires recordedDuration >= 0.0
    ensures m.isRecording ==>
      && !r.isRecording && !r.isPlaying
      && !r.engine.inst.started && !r.engine.vocal.started
      && r.engine.vocal.loaded && r.engine.vocal.duration == recordedDuration
      && r.duration == Engine.GetMaxDuration(r.engine)
      && r.duration >= recordedDuration
      && r.currentTime == m.currentTime
    ensures !m.isRecording && !micOk ==> r == m
    ensures !m.isRecording && micOk ==>
      r == m.(isRecording := true, isPlaying := true, engine := Engine.Play(m.engine, now, m.currentTime))
    ensures Engine.Valid(m.engine) ==> Engine.Valid(r.engine)
    ensures r.isExporting == m.isExporting
  {
    if m.isRecording then
      var e := Engine.Load(Engine.Stop(m.engine, now), Vocal, recordedDuration);
      m.(isRecording := false, isPlaying := false, engine := e, duration := Engine.GetMaxDuration(e))
    else if !micOk then m
    else m.(isRecording := true, isPlaying := true, engine := Engine.Play(m.engine, now, m.currentTime))
  }

  /** Starting a recording and stopping it again lands on a stopped mixer
      at the same playhead, with the take loaded as the vocal. */
  lemma RecordThenStop(m: Mixer, now: real, later: real, recordedDuration: real)
    requires !m.isRecording && recordedDuration >= 0.0
    ensures var r := RecordToggle(RecordToggle(m, now, true, recordedDuration), later, true, recordedDuration);
      && !r.isRecording && !r.isPlaying && Silent(r.engine)
      && r.currentTime == m.currentTime
      && r.engine.vocal.loaded
      && r.engine.offset == m.engine.offset
      && r.isExporting == m.isExporting
  {
  }

  /** `togglePlay()`. While recording it is the record button's stop.
      While playing it pauses. Otherwise, at or past the end it seeks the
      engine to 0 and resets the playhead, and then starts the engine from
      the playhead value read before the reset. */
  function TogglePlay(m: Mixer, now: real, recordedDuration: real): (r: Mixer)
    requires recordedDuration >= 0.0
    ensures m.isRecording ==> r == RecordToggle(m, now, true, recordedDuration)
    ensures !m.isRecording && m.isPlaying ==>
      r == m.(isPlaying := false, engine := Engine.Pause(m.engine, now))
    ensures !m.isRecording && !m.isPlaying ==>
      && r.isPlaying && !r.isRecording
      && r.duration == m.duration
      && r.currentTime == (if m.currentTime >= m.duration then 0.0 else m.currentTime)
      && (r.engine.inst.loaded ==> r.engine.inst.started && r.engine.inst.position == m.currentTime)
      && (r.engine.vocal.loaded ==>
            && r.engine.vocal.started
            && r.engine.vocal.position ==
                 (if m.currentTime - m.engine.offset >= 0.0 then m.currentTime - m.engine.offset else 0.0))
      && (r.engine.inst.loaded && r.engine.vocal.loaded ==> Engine.Aligned(r.engine))
    ensures Engine.Valid(m.engine) ==> Engine.Valid(r.engine)
    ensures r.isExporting == m.isExporting
  {
    if m.isRecording then RecordToggle(m, now, true, recordedDuration)
    else if m.isPlaying then m.(isPlaying := false, engine := Engine.Pause(m.engine, now))
    else
      var m1 :=
        if m.currentTime >= m.duration then m.(engine := Engine.Seek(m.engine, now, 0.0), currentTime := 0.0)
        else m;
      m1.(engine := Engine.Play(m1.engine, now, m.currentTime), isPlaying := true)
  }

  /** Pressing play at the end of a session resets the displayed playhead
      to 0, but the engine is started from the old playhead, not from 0:
      the seek to 0 only moves loaded players, which `play` then restarts
      anyway. */
  lemma ReplayAtEndKeepsOldTime(m: Mixer, now: real, recordedDuration: real)
    requires !m.isRecording && !m.isPlaying && m.currentTime >= m.duration
    requires recordedDuration >= 0.0
    ensures var r := TogglePlay(m, now, recordedDuration);
      && r.currentTime == 0.0
      && r.engine == Engine.Play(m.engine, now, m.currentTime)
      && (m.engine.inst.loaded && m.currentTime != 0.0 ==> r.engine.inst.position != r.currentTime)
  {
  }

  /** Play then pause, before any tick, returns to a stopped flag at the
      same playhead when the playhead was inside the session. The engine is
      silent exactly when the pause comes after every start `play`
      scheduled: the lookahead, and for the vocal the part of the offset
      not yet played. */
  lemma PlayThenPause(m: Mixer, now: real, later: real, recordedDuration: real)
    requires !m.isRecording && !m.isPlaying && m.currentTime < m.duration
    requires recordedDuration >= 0.0
    ensures var r := TogglePlay(TogglePlay(m, now, recordedDuration), later, recordedDuration);
      && !r.isPlaying
      && r.currentTime == m.currentTime
      && r.duration == m.duration
      && (Silent(r.engine) <==> Engine.Reached(TogglePlay(m, now, recordedDuration).engine, later))
    ensures Engine.Valid(m.engine) ==>
      var r := TogglePlay(TogglePlay(m, now, recordedDuration), later, recordedDuration);
      (Silent(r.engine) <==>
        && (m.engine.inst.loaded ==> now + Engine.Lookahead <= later)
        && (m.engine.vocal.loaded ==> now + Engine.Lookahead + Engine.VocalDelay(m.engine, m.currentTime) <= later))
  {
    var p := TogglePlay(m, now, recordedDuration);
    assert p.engine == Engine.Play(m.engine, now, m.currentTime);
    if Engine.Valid(m.engine) {
      Engine.PlayStartsReached(m.engine, now, m.currentTime, later);
    }
  }

  /** The record button keeps the play flag and the engine in step; the
      play button does when no start is pending as it is pressed, and its
      pause does exactly then. */
  lemma ButtonsKeepSettled(m: Mixer, now: real, micOk: bool, recordedDuration: real)
    requires recordedDuration >= 0.0 && Settled(m)
    ensures Settled(RecordToggle(m, now, micOk, recordedDuration))
    ensures Engine.Reached(m.engine, now) ==> Settled(TogglePlay(m, now, recordedDuration))
    ensures !m.isRecording && m.isPlaying && !m.isExporting ==>
      (Settled(TogglePlay(m, now, recordedDuration)) <==> Engine.Reached(m.engine, now))
  {
  }
}
