/** Exporting the mix (App.tsx): the guard and reset before an export
    (`prepareForExport`), the progress timer shared by the audio and video
    exports, and what each export leaves behind when it finishes. The
    recorders, the canvas animation and the download itself are not part
    of this model; a finished recording is abstracted to its size in
    bytes, and the timer's `Date.now() - startTime` to `elapsed`
    milliseconds. */
module Export {
  import opened JsMath
  import Engine
  import opened Playback

  /** Milliseconds the timer waits past the session length before it
      finishes an export. */
  const Grace: real := 500.0

  /** The highest progress the timer ever shows. */
  const ProgressCap: real := 99.0

  /** `prepareForExport()`. With a session length of 0 it refuses and
      changes nothing. Otherwise it stops the engine if playing, stops a
      recording as the record button does, seeks the engine to 0 and
      rewinds the playhead, and clears the playing flag. */
  function Prepare(m: Mixer, now: real, recordedDuration: real): (result: (bool, Mixer))
    requires recordedDuration >= 0.0
    ensures m.duration == 0.0 ==> result == (false, m)
    ensures m.duration != 0.0 ==>
      var r := result.1;
      && result.0
      && !r.isPlaying && !r.isRecording
      && r.currentTime == 0.0
      && r.isExporting == m.isExporting
      && (Settled(m) && !m.isExporting ==> Silent(r.engine))
      && (m.isPlaying || m.isRecording ==> Silent(r.engine))
    ensures m.duration != 0.0 && !m.isRecording ==> result.1.duration == m.duration
    ensures Engine.Valid(m.engine) ==> Engine.Valid(result.1.engine)
  {
    if m.duration == 0.0 then (false, m)
    else
      var m1 := if m.isPlaying then m.(engine := Engine.Stop(m.engine, now)) else m;
      var m2 := if m1.isRecording then RecordToggle(m1, now, true, recordedDuration) else m1;
      (true, m2.(engine := Engine.Seek(m2.engine, now, 0.0), currentTime := 0.0, isPlaying := false))
  }

  /** `Math.min((elapsed / exportDurationMs) * 100, 99)`. */
  function Progress(elapsed: real, durationMs: real): (p: real)
    requires durationMs > 0.0
    ensures p <= ProgressCap
    ensures elapsed >= 0.0 ==> 0.0 <= p
    ensures p == ProgressCap || p * durationMs == elapsed * 100.0
  {
    Min(elapsed / durationMs * 100.0, ProgressCap)
  }

  /** The timer finishes the export once the session and the grace period
      have passed. */
  predicate Finishes(elapsed: real, durationMs: real) {
    elapsed >= durationMs + Grace
  }

  /** Progress never goes backwards as time passes. */
  lemma ProgressMonotone(a: real, b: real, durationMs: real)
    requires durationMs > 0.0 && a <= b
    ensures Progress(a, durationMs) <= Progress(b, durationMs)
  {
    assert a / durationMs <= b / durationMs by {
      DivMonotone(a, b, durationMs);
    }
  }

  lemma DivMonotone(a: real, b: real, d: real)
    requires d > 0.0 && a <= b
    ensures a / d <= b / d
  {
    var x, y := a / d, b / d;
    assert a == x * d && b == y * d;
  }

  /** The display reaches the cap at 99% of the session and stays below
      it before; so when the timer finishes the export it shows 99. */
  lemma ProgressAtCap(elapsed: real, durationMs: real)
    requires durationMs > 0.0
    ensures elapsed >= 0.99 * durationMs ==> Progress(elapsed, durationMs) == ProgressCap
    ensures 0.0 <= elapsed < 0.99 * durationMs ==> Progress(elapsed, durationMs) < ProgressCap
    ensures Finishes(elapsed, durationMs) ==> Progress(elapsed, durationMs) == ProgressCap
  {
    var q := elapsed / durationMs;
    assert elapsed == q * durationMs;
  }

  /** Starting an export: the flag rises, the progress shows 0 and the
      engine plays from the start. */
  function Begin(m: Mixer, now: real): (r: Mixer)
    ensures r.isExporting && r.exportProgress == 0.0 && Settled(r)
    ensures r.engine.inst.loaded ==> r.engine.inst.started && r.engine.inst.position == 0.0
    ensures r.engine.vocal.loaded ==>
      r.engine.vocal.started && r.engine.vocal.position == (if m.engine.offset <= 0.0 then -m.engine.offset else 0.0)
    ensures r.engine.inst.loaded && r.engine.vocal.loaded ==> Engine.Aligned(r.engine)
    ensures r.isPlaying == m.isPlaying && r.currentTime == m.currentTime && r.duration == m.duration
    ensures Engine.Valid(m.engine) ==> Engine.Valid(r.engine)
  {
    m.(isExporting := true, exportProgress := 0.0, engine := Engine.Play(m.engine, now, 0.0))
  }

  /** One run of the export timer: the progress shown. */
  function TimerTick(m: Mixer, elapsed: real, durationMs: real): (r: Mixer)
    requires durationMs > 0.0
    ensures r == m.(exportProgress := r.exportProgress)
    ensures 0.0 <= elapsed ==> 0.0 <= r.exportProgress <= ProgressCap
  {
    m.(exportProgress := Progress(elapsed, durationMs))
  }

  /** The end of an audio export: the engine stops, the recording is
      downloaded when it holds data and reported as failed otherwise, and
      the export flag drops. The playing flag is left as it was. */
  function FinishAudio(m: Mixer, now: real, size: nat): (result: (bool, Mixer))
    ensures result.0 <==> size > 0
    ensures var r := result.1;
      && !r.isExporting && Silent(r.engine) && Settled(r)
      && r.isPlaying == m.isPlaying && r.currentTime == m.currentTime
  {
    (size > 0, m.(engine := Engine.Stop(m.engine, now), isExporting := false))
  }

  /** The end of a video export: the engine stops; an empty recording is
      reported as failed and only the export flag drops, while a recording
      with data is downloaded and the playing flag drops as well. */
  function FinishVideo(m: Mixer, now: real, size: nat): (result: (bool, Mixer))
    ensures result.0 <==> size > 0
    ensures var r := result.1;
      && !r.isExporting && Silent(r.engine) && Settled(r)
      && (size > 0 ==> !r.isPlaying)
      && (size == 0 ==> r.isPlaying == m.isPlaying)
      && r.currentTime == m.currentTime
  {
    var stopped := m.(engine := Engine.Stop(m.engine, now));
    if size == 0 then (false, stopped.(isExporting := false))
    else (true, stopped.(isExporting := false, isPlaying := false))
  }

  /** The playback tick stands still during an export. */
  lemma TickIdleWhileExporting(m: Mixer, elapsed: real, now: real)
    requires m.isExporting
    ensures Tick(m, elapsed, now) == m
  {
  }

  /** A whole audio export of a loaded session: after preparing, starting,
      and the timer's final run, nothing plays, the playhead is at 0, the
      progress shows 99, the export flag is down, and a file was
      downloaded exactly when the recording holds data. */
  lemma AudioExportRun(m: Mixer, now: real, recordedDuration: real, elapsed: real, finish: real, size: nat)
    requires m.duration > 0.0 && recordedDuration >= 0.0
    requires Settled(m) && !m.isExporting
    requires Finishes(elapsed, m.duration * 1000.0)
    ensures var (ok, m1) := Prepare(m, now, recordedDuration);
      var m2 := TimerTick(Begin(m1, now), elapsed, m.duration * 1000.0);
      var (downloaded, r) := FinishAudio(m2, finish, size);
      && ok
      && !r.isExporting && !r.isPlaying && Silent(r.engine)
      && r.currentTime == 0.0
      && r.exportProgress == ProgressCap
      && (downloaded <==> size > 0)
  {
    ProgressAtCap(elapsed, m.duration * 1000.0);
  }
}
