# soundmix in Dafny

This is a model of the deterministic core of soundmix, a browser mixer. The
mixer plays an instrumental and a vocal track in lockstep, shifts the vocal by
an offset, applies per-track channel-strip settings, records a vocal take and
exports the mix. The model does not cover the audio graph. It covers the state
that each engine call leaves behind, the WAV encoder, and the pure helpers of
the user interface. Each module is a set of pure functions over immutable
datatypes.

| module | file | models |
|---|---|---|
| `Types` | types.dfy | `TrackType`, `PlayMode`, and `AudioSettings` with its documented ranges (types.ts) |
| `Constants` | constants.dfy | `DEFAULT_SETTINGS` (constants.ts) |
| `JsMath` | jsmath.dfy | JavaScript `\|0`, `Math.floor`, `Math.min`/`max`, and `%` with the sign of the dividend |
| `Wav` | wav.dfy | `audioBufferToBlob`: the 44-byte RIFF/WAVE header, then clamped 16-bit little-endian interleaved samples |
| `Engine` | engine.dfy | class `ToneEngine`: two players, the vocal offset, and the two channel strips' parameter targets |
| `TimeFormat` | time_format.dfy | `formatTime` |
| `MusicQueue` | music_queue.dfy | `playTrackAtIndex`, `handleMusicNext`, `handleMusicPrev` |
| `MusicSearch` | music_search.dfy | the search term of `fetchMusic` and its keep-first dedup by id |
| `Playback` | playback.dfy | `togglePlay`, `handleRecordToggle`, and the 50 ms playback tick |
| `Export` | export.dfy | `prepareForExport`, the export progress timer, and how the audio and video exports finish |

## Modelling choices

- **Players.** A `Tone.Player` is a record: `loaded`, `duration`, `started`,
  `startAt` and `position`. From wall-clock time `startAt` on, it plays buffer
  second `position + (t - startAt)`. The model assumes the usual Tone.js
  semantics: `start(t, o)` sets both fields, `stop()` clears `started` and
  cancels a start still pending, and `seek(o)` on a started player restarts
  it now from `o`. The Tone.js source is not part of this model.
- **Pending starts and played-out buffers.** `play` schedules its starts
  0.1 s ahead, and a delayed vocal later still. No player loops, so Tone's
  `state` reads 'started' only from the start time until the buffer has
  played out (`Engine.Sounding`). The buffer ends `(duration - position) /
  playbackRate` seconds after the start (`Engine.PlayedOut`). `pause`, `seek`
  and `setVocalOffset` test that state (services/ToneEngine.ts:198-199, 209,
  213, 223), so each takes the call time `now`. `seek` and `setVocalOffset`
  skip a player whose start is pending or whose buffer has played out.
  `pause` leaves a pending start scheduled. On a played-out player, `pause`
  clears the model's `started` flag too, which changes nothing audible.
  `Engine.Reached(e, t)` says no start is pending at t.
- **Alignment** (`Engine.Aligned`) says the vocal's timeline origin lies
  `offset` seconds after the instrumental's. Positions are buffer seconds, and
  the alignment claim ignores `playbackRate`.
- **Ramped parameters.** A parameter written by cancel-then-ramp is its target
  value.
- **Inputs.**
  - `Tone.now()`, the transport position read by `setVocalOffset`, the tick's
    elapsed time and the export timer's elapsed milliseconds are all inputs.
  - `Math.random()` is an input of the shuffle step.
  - Whether the microphone opened is an input of the record button.
  - A finished recording is abstracted to its size in bytes, and a decoded
    vocal take to its duration.
- **Numbers.**
  - Numbers are `real` or `int`.
  - A DataView store reduces the value modulo 2^16 or 2^32 and writes the low
    byte first.
  - `x | 0` truncates toward zero.
  - `%` keeps the sign of the dividend.

Notes on what the code does:

- `stop()` does not rewind the players (services/ToneEngine.ts:202-206). It
  differs from `pause()` only by also cancelling pending starts
  (`Engine.StopIsPause`).
- A `pause()` soon after `play` leaves a delayed vocal scheduled, so the vocal
  later plays alone (`Engine.PauseLeavesPendingVocal`).
- `seek(t)` leaves a started vocal alone when `t - offset` is negative
  (services/ToneEngine.ts:214-217). It does not move the vocal to position 0
  (`Engine.SeekBeforeVocalEntry`).
- A seek while the vocal's start is pending moves the instrumental alone and
  breaks the lock (`Engine.SeekWhileVocalPending`). A new offset breaks it
  too when the instrumental does not sound at that moment, because its start
  is pending or it has played out (`Engine.SetVocalOffsetWhileSilent`).
- A seek after a shorter vocal take has played out moves the instrumental
  alone, and the take stays silent (`Engine.SeekAfterVocalEnded`). After the
  instrumental has played out, `setVocalOffset` stores the offset and
  restarts nothing (`Engine.OffsetIgnoredAfterEnd`).
- `play` locks the two timelines exactly, in both branches
  (services/ToneEngine.ts:188-193, `Engine.PlayAligns`).
- At the end of a session, `togglePlay` resets the displayed playhead to 0 but
  starts the engine from the old playhead (App.tsx:434-439). The `seek(0)`
  before it has no effect on stopped players
  (`Playback.ReplayAtEndKeepsOldTime`).
- The field comments of types.ts give bass boost 0..10 and speed 0.5..2.0. The
  mixer's knobs allow 0..20 and 0.5..1.5 (App.tsx:1178, 1184).
  `Types.WellFormed` follows the comments. `Types.UiRangesVersusDocumented`
  shows the mismatch.
- A negative time displays with a minus sign on the minutes and, unless it is
  a whole number of minutes, on the seconds too: `formatTime(-5)` is "-1:-5"
  (App.tsx:83-85, `TimeFormat.FormatTimeNegative`).

## Model

| member | source | states |
|---|---|---|
| Types.TrackTypeCases | types.ts:2 | a track is instrumental or vocal, nothing else |
| Types.PlayModeCases | types.ts:58 | a play mode is normal, repeat or shuffle, nothing else |
| Types.UiRangesVersusDocumented | types.ts:18-22 | every documented speed within 0.5..1.5 is one the knob allows; a bass boost of 20, which the knob allows, is outside the documented 0..10 |
| Constants.DefaultSettings | constants.ts:22-36 | the defaults are within every documented range and within the knobs' ranges; they are neutral (no pan, EQ, bass boost, effects or pitch, unity speed), with volume below 0 dB and dynamics enabled |
| JsMath.Trunc | services/ToneEngine.ts:68 | `x \| 0` lands within one unit of x, on the side of zero |
| JsMath.TruncMonotone | services/ToneEngine.ts:68 | truncation preserves order |
| JsMath.Floor | App.tsx:83-84 | `Math.floor(x)` is the greatest integer at most x |
| JsMath.Rem | App.tsx:301 | integer `%` by a positive n lies in [0, n) for a non-negative dividend and in (-n, 0] for a negative one |
| JsMath.RemQuot | App.tsx:301 | the remainder and the truncated quotient recompose the dividend; on a non-negative dividend `%` is the mathematical remainder |
| JsMath.RemReal | App.tsx:84 | `x % m` on numbers takes the sign of x and has magnitude below m |
| Wav.Uint16LE | services/ToneEngine.ts:34-37 | `setUint16` writes two bytes |
| Wav.Uint32LE | services/ToneEngine.ts:39-42 | `setUint32` writes four bytes |
| Wav.Uint16RoundTrip | services/ToneEngine.ts:34-37 | a 16-bit store reads back as the value modulo 2^16 |
| Wav.Uint32RoundTrip | services/ToneEngine.ts:39-42 | a 32-bit store reads back as the value modulo 2^32 |
| Wav.Int16RoundTrip | services/ToneEngine.ts:69 | a value in the signed 16-bit range, stored by `setInt16`, reads back as itself |
| Wav.TagWordsSpellIdentifiers | services/ToneEngine.ts:45-58 | the four tag constants, stored little-endian, are the ASCII bytes "RIFF", "WAVE", "fmt " and "data" |
| Wav.Clamp | services/ToneEngine.ts:67 | the clamped sample lies in [-1, 1], equals the sample inside that range and the nearer bound outside it |
| Wav.Quantize | services/ToneEngine.ts:67-68 | every written sample lies in [-32768, 32767] |
| Wav.QuantizeExtremes | services/ToneEngine.ts:67-68 | full scale maps to 32767 and -32768, and silence to 0 |
| Wav.QuantizeMonotone | services/ToneEngine.ts:67-68 | quantising preserves the order of samples, also across the switch between the two scale factors at -0.5 |
| Wav.QuantizeError | services/ToneEngine.ts:67-68 | the written integer is within two steps of the clamped sample times 32768 |
| Wav.FlattenLength | services/ToneEngine.ts:65-73 | n equal chunks of k bytes make n*k bytes |
| Wav.FlattenPrefix | services/ToneEngine.ts:65-73 | the bytes of the first chunks are a prefix of the bytes of all chunks |
| Wav.FlattenAt | services/ToneEngine.ts:65-73 | with chunks of k bytes, chunk j occupies bytes j*k to j*k+k |
| Wav.FrameSamples | services/ToneEngine.ts:66-71 | a frame holds one two-byte sample per channel |
| Wav.FrameBytes | services/ToneEngine.ts:66-71 | a frame takes 2*channels bytes |
| Wav.Frames | services/ToneEngine.ts:65-73 | there is one frame of 2*channels bytes for each frame of the buffer |
| Wav.Payload | services/ToneEngine.ts:65-73 | the sample data takes frames*channels*2 bytes |
| Wav.Serialize | services/ToneEngine.ts:34-42 | a run of writes produces exactly as many bytes as the position it reaches |
| Wav.HeaderWrites | services/ToneEngine.ts:44-59 | the header is thirteen stores |
| Wav.Header | services/ToneEngine.ts:44-59 | the header is 44 bytes |
| Wav.HeaderPositions | services/ToneEngine.ts:44-59 | each header store begins where the previous one ended, at offsets 0, 4, 8, …, 36, 40; the header ends at 44, so the data size is written at position 40 |
| Wav.Encode | services/ToneEngine.ts:24-76 | the file is `frames*channels*2 + 44` bytes and begins with the header |
| Wav.WriteAt | services/ToneEngine.ts:34-42 | the bytes of each store sit in the output at the position the stores before it reached |
| Wav.PrefixEnds | services/ToneEngine.ts:34-42 | the write position never moves backwards |
| Wav.HeaderWriteAt | services/ToneEngine.ts:44-59 | the bytes of header store k sit at its offset |
| Wav.HeaderWord | services/ToneEngine.ts:44-59 | reading header store k at its offset gives its value modulo 2^16 or 2^32 |
| Wav.HeaderReadsBack | services/ToneEngine.ts:44-59 | all thirteen header stores read back, at their offsets, as their stored values |
| Wav.HeaderTags | services/ToneEngine.ts:45-58 | "RIFF", "WAVE", "fmt " and "data" sit at offsets 0, 8, 12 and 36 |
| Wav.FormatConstants | services/ToneEngine.ts:50-56 | the `fmt ` size 16 is at offset 16, format tag 1 (PCM) at 20, and 16 bits per sample at 34; the sample rate at 24 is reduced modulo 2^32 |
| Wav.SizeFieldsExact | services/ToneEngine.ts:25-59 | below 4 GiB, the RIFF size at offset 4 is the file length less 8, and the data size at 40 is `frames*channels*2` |
| Wav.FormatFieldsExact | services/ToneEngine.ts:52-55 | when they fit their fields, the channel count at 22, the byte rate `rate*2*channels` at 28 and the block alignment `2*channels` at 32 read back exactly |
| Wav.NestedAt | services/ToneEngine.ts:65-73 | piece j of frame f, each frame holding k two-byte pieces, sits at byte 2*(f*k+j) of the sample data |
| Wav.PayloadSample | services/ToneEngine.ts:65-73 | within the sample data, frame f, channel c is the two bytes at 2*(f*channels + c) |
| Wav.ReadInt16 | services/ToneEngine.ts:69 | two bytes stored by `setInt16` read back as the signed value written |
| Wav.SampleLands | services/ToneEngine.ts:62-73 | the sample of frame f, channel c sits at byte 44 + 2*(f*channels + c) and reads back as exactly its quantised value |
| Wav.SampleAt | services/ToneEngine.ts:67 | a sample inside a channel's data is read as stored, and one past its end as 0 |
| Wav.SilencePastChannelEnd | services/ToneEngine.ts:62-73 | a frame inside the buffer's length but past a channel's data is written as two zero bytes, reading back as 0 |
| Wav.NoChannelsHeaderOnly | services/ToneEngine.ts:25 | without channels the file is the header alone |
| Wav.WriteFrame | services/ToneEngine.ts:66-71 | one round of the inner loop writes the frame's clamped, scaled, truncated samples in channel order |
| Wav.EncodeWav | services/ToneEngine.ts:24-76 | the encoder loop produces the file `Encode` describes; the outer loop runs once per frame, never without channels, and stops with the position at the file length |
| Engine.AlignedMeansLocked | services/ToneEngine.ts:188-193 | the two origins are `offset` apart exactly when, at every instant, the vocal plays the buffer second `offset` behind the instrumental's |
| Engine.EmptyPlayer | services/ToneEngine.ts:160-163 | a fresh player has nothing loaded and is not started |
| Engine.Init | services/ToneEngine.ts:107-171 | a new engine is valid, has nothing loaded, offset 0, and a maximum duration of 0 |
| Engine.Load | services/ToneEngine.ts:173-178 | loading marks only the chosen player loaded with the buffer's duration; its started flag, last start, position and rate, the other player, the offset and the strips are unchanged |
| Engine.Play | services/ToneEngine.ts:180-195 | unloaded players are untouched; the instrumental starts at now+0.1 from `currentTime`; the vocal starts from `currentTime - offset` when that is not negative and from 0 otherwise, at now+0.1 plus the part of the offset not yet played, so that start − position = now + 0.1 − currentTime + offset in both branches; buffers and rates are unchanged |
| Engine.VocalDelay | services/ToneEngine.ts:188-193 | the vocal starts late by a non-negative delay, which is 0 exactly when `currentTime - offset` is not negative |
| Engine.PlayAligns | services/ToneEngine.ts:180-195 | with both players loaded, `play` locks the two timelines at the offset |
| Engine.PlayStartsReached | services/ToneEngine.ts:180-195 | on a valid engine, every start `play` schedules has come at t exactly when t is at least now+0.1 for a loaded instrumental and now+0.1 plus the vocal's delay for a loaded vocal |
| Engine.Pause | services/ToneEngine.ts:197-200 | a player ends started exactly when its start was still pending at `now`; no player sounds afterwards; nothing else changes: loaded flags, buffers, positions, offset and strips |
| Engine.Stop | services/ToneEngine.ts:202-206 | both players end stopped, pending starts included; nothing else changes and nothing is rewound |
| Engine.StopIsPause | services/ToneEngine.ts:197-206 | `stop` leaves the same state as `pause` exactly when no start is pending; both are idempotent |
| Engine.PauseLeavesPendingVocal | services/ToneEngine.ts:180-200 | with the vocal 1 s behind, a pause 0.5 s after `play(0)` stops the instrumental, while the vocal stays scheduled to enter from 0 at now+1.1 |
| Engine.Seek | services/ToneEngine.ts:208-219 | only loaded players that sound at `now` move, to start now; a pending start or a played-out buffer does not move; the instrumental moves to `time`, and the vocal to `time - offset` only when that is not negative; started flags, buffers, rates, offset and strips are unchanged |
| Engine.SeekKeepsAlignment | services/ToneEngine.ts:208-219 | seeking two sounding players (started, start time come, buffer not played out) to a time at or after the vocal's entry locks them |
| Engine.SeekBeforeVocalEntry | services/ToneEngine.ts:208-219 | a seek that does not move the vocal (target before its entry, its start pending, or its buffer played out) moves the sounding instrumental alone; locked players stay locked exactly when the instrumental's origin did not move |
| Engine.SeekWhileVocalPending | services/ToneEngine.ts:180-219 | with the vocal 1 s behind, `seek(3)` 0.5 s after `play(0)` moves the instrumental to 3 while the vocal still enters from 0 at now+1.1, so the players are no longer locked |
| Engine.SeekAfterVocalEnded | services/ToneEngine.ts:180-219 | with a 30 s vocal under a 180 s instrumental at offset 0, `seek(10)` 60 s after `play(0)` moves the instrumental to 10 while the played-out vocal stays as it was, so the players are no longer locked |
| Engine.SetVocalOffset | services/ToneEngine.ts:221-228 | the offset is always stored; an instrumental not sounding at `now` (stopped, pending or played out) leaves both players as they were; a sounding one restarts at now+0.1 from the given transport position `tp`; a loaded vocal restarts from `tp - seconds`, or from 0 and late by the missing seconds when that is negative; an unloaded vocal ends stopped; buffers and rates are unchanged |
| Engine.SetVocalOffsetAligns | services/ToneEngine.ts:221-228 | after a new offset with the instrumental sounding and both tracks loaded, the players are locked at the new offset |
| Engine.SetVocalOffsetWhileSilent | services/ToneEngine.ts:221-228 | while the instrumental does not sound (stopped, pending or played out), a new offset restarts nothing, and locked players stay locked exactly when the offset did not change |
| Engine.OffsetIgnoredAfterEnd | services/ToneEngine.ts:221-228 | with a 30 s instrumental played from 0 at time 0, `setVocalOffset(2)` at time 60 stores the offset and leaves both players as they were |
| Engine.UpdateSettings | services/ToneEngine.ts:230-282 | the chosen strip carries every value written; with dynamics on, the de-esser's threshold and frequency are the settings' and its ratio is 6; with dynamics off, it is bypassed (threshold 0, ratio 1) and its frequency is untouched; the other strip, the offset and the transport state are unchanged |
| Engine.UpdateSettingsIdempotent | services/ToneEngine.ts:230-282 | applying the same settings twice is applying them once |
| Engine.UpdateSettingsLastWins | services/ToneEngine.ts:230-282 | the last write wins, except that a vocal write with dynamics off keeps the de-esser frequency of the last write that had dynamics on |
| Engine.UpdatesCommute | services/ToneEngine.ts:230-282 | updates to the two strips commute |
| Engine.GetMaxDuration | services/ToneEngine.ts:320-324 | the result is at least each loaded duration and is 0 or one of them; it is non-negative on a valid engine |
| Engine.MaxDurationIgnoresTransport | services/ToneEngine.ts:320-324 | the offset, `play`, `pause`, `stop`, `seek` and `setVocalOffset` leave the maximum duration unchanged |
| Engine.DefaultsOnFreshEngine | constants.ts:35 | applied to a fresh engine, the defaults take the enabled de-esser branch on the vocal strip and change only its threshold, from -24 dB to -10 dB; on the instrumental strip they change nothing |
| TimeFormat.NatToString | App.tsx:85 | the decimal digits of n: non-empty, digits only, one digit below 10, and a leading zero only for 0 |
| TimeFormat.IntToString | App.tsx:85 | a minus sign leads exactly for a negative integer, and digits follow |
| TimeFormat.NatRoundTrip | App.tsx:85 | reading the decimal digits of n gives n |
| TimeFormat.ParseInt | App.tsx:85 | a string parses exactly when it is digits, or a minus sign and at least one digit; the value is non-negative without the sign and non-positive with it |
| TimeFormat.IntRoundTrip | App.tsx:85 | reading back what `toString` wrote gives the integer |
| TimeFormat.PadTwo | App.tsx:85 | `padStart(2, '0')` leaves strings of two or more characters alone and left-pads shorter ones with zeros to length 2 |
| TimeFormat.FormatTime | App.tsx:81-86 | 0 and non-finite inputs show "0:00"; every display has at least four characters and starts with a minus sign exactly for a negative time |
| TimeFormat.FieldsOfPositive | App.tsx:83-84 | for a positive time, the minutes are floor(s)/60 and the seconds floor(s) mod 60 |
| TimeFormat.ClockRoundTrip | App.tsx:85 | minutes, a colon and two-digit seconds read back as the numbers written |
| TimeFormat.FormatTimeReadsBack | App.tsx:81-86 | a positive time displays as minutes, a colon and exactly two seconds digits, and reads back as minutes*60 + seconds = floor(s), with seconds below 60 |
| TimeFormat.FormatTimeZero | App.tsx:82 | 0 and non-finite inputs show "0:00" |
| TimeFormat.FormatTimeNegative | App.tsx:83-85 | every negative time shows a minus sign on the minutes, and on the seconds exactly when it is not a whole number of minutes, where the seconds show "00" |
| TimeFormat.FormatTimeMinusFive | App.tsx:83-85 | -5 s displays as "-1:-5" |
| MusicQueue.PlayTrackAtIndex | App.tsx:276-287 | an index outside the queue changes nothing; otherwise the track becomes current from time 0 |
| MusicQueue.Next | App.tsx:289-304 | an empty queue is untouched; repeat keeps the index and restarts the track; normal moves to (i+1) mod n; shuffle lands inside the queue; a valid index stays valid |
| MusicQueue.ShuffleInRange | App.tsx:294 | `Math.floor(random*n)` with random in [0,1) is an index of the queue |
| MusicQueue.Prev | App.tsx:306-316 | an empty queue is untouched; after more than 3 s the index stays and the time resets to 0; otherwise it moves to (i-1+n) mod n; a valid index stays valid |
| MusicQueue.NextInRange | App.tsx:301 | from any index >= -1, next is inside the queue; it wraps from the last track to the first |
| MusicQueue.PrevInRange | App.tsx:314 | from any index >= -1, previous is inside the queue; it wraps from the first track to the last |
| MusicQueue.PrevNextInverse | App.tsx:289-316 | on every index of the queue, previous undoes next and next undoes previous |
| MusicQueue.NextThenPrev | App.tsx:289-316 | in normal mode near the start of a track, stepping forward then back returns to the same track |
| MusicSearch.TrimEnd | App.tsx:139 | removes exactly the trailing white space |
| MusicSearch.TrimStart | App.tsx:139 | removes exactly the leading white space |
| MusicSearch.Trim | App.tsx:139 | the result has no white space at either end |
| MusicSearch.TrimIsInfix | App.tsx:139 | trimming removes white space only: the result is a slice of the input with only white space around it |
| MusicSearch.TrimEmpty | App.tsx:135 | a string trims to nothing exactly when it is all white space |
| MusicSearch.TrimKeepsLastWord | App.tsx:139 | a trimmed word followed by white space ends the trimmed string |
| MusicSearch.FallbackTrims | App.tsx:135-137 | the fallback trims to "Top hits india" |
| MusicSearch.TermFrom | App.tsx:135-139 | a blank raw term becomes "Top hits india"; any other raw term is trimmed; the result is non-empty and trimmed |
| MusicSearch.SearchTerm | App.tsx:109-139 | the term sent is non-empty and trimmed |
| MusicSearch.DefaultTerm | App.tsx:109-139 | an empty search with category and language both "All" gives "Top hits india" |
| MusicSearch.LanguageEndsTerm | App.tsx:131-133 | a language other than "All" ends the term unless the category is "Movie Songs" |
| MusicSearch.MoviePhraseTrimmed | App.tsx:117-121 | every "Movie Songs" phrase is non-empty and trimmed |
| MusicSearch.MovieSongsTerm | App.tsx:116-122 | for "Movie Songs" the term ends with the language's phrase, and the language is not appended separately |
| MusicSearch.CategoryWords | App.tsx:116-128 | a category contributes words exactly when it is not "All", and its words end with a space |
| MusicSearch.RawTerm | App.tsx:109-133 | the raw term is empty exactly when nothing is searched and both filters are "All"; otherwise it ends with a space and starts with the search text and a space when there is one; the language and a space end it when the language is not "All" and the category is not "Movie Songs", and otherwise the term is the search part followed by the category's words alone |
| MusicSearch.FindIndex | App.tsx:161 | `findIndex` gives the first position holding the id, or -1 when none does |
| MusicSearch.IdsMember | App.tsx:160-162 | an id is among a list's ids exactly when some track of the list has it |
| MusicSearch.FirstInPrefix | App.tsx:160-162 | an id occurs among the first n tracks exactly when its first occurrence is one of them |
| MusicSearch.KeepFirst | App.tsx:160-162 | the filter keeps only first occurrences, in increasing order of position, with distinct ids |
| MusicSearch.Dedup | App.tsx:160-162 | the result has pairwise distinct ids and is no longer than the input |
| MusicSearch.KeepFirstIds | App.tsx:160-162 | the filter loses no id |
| MusicSearch.DedupSpec | App.tsx:160-162 | each id of the input appears exactly once, as its first occurrence, in the order of first occurrence |
| MusicSearch.KeepFirstDistinct | App.tsx:160-162 | a list without repeated ids passes the filter unchanged |
| MusicSearch.DedupIdempotent | App.tsx:160-162 | removing repeats twice removes nothing more |
| MusicSearch.DedupWithSeen | App.tsx:160-162 | the same filter, computed with a set of ids already seen, gives the same list |
| Playback.Tick | App.tsx:925-949 | outside playback or during an export nothing changes; while recording the session grows to max(duration, elapsed) and the playhead follows; otherwise at or past a positive end playback stops on the end and the engine pauses, and before it the playhead follows; the session never shrinks |
| Playback.TickBounds | App.tsx:925-949 | after a tick the playhead is below a positive session length whenever it plays and does not record; the tick that stops playback at the end leaves the engine silent exactly when no start is pending |
| Playback.TickKeepsReached | App.tsx:938-942 | a tick only ever stops players, so a time by which every start has come stays such a time |
| Playback.TicksKeep | App.tsx:925-949 | over any run of ticks the session never shrinks, the playhead stays bounded, the engine stays valid, and it stays in step with the play flag when no tick comes while a start is pending |
| Playback.RecordingCoversTicks | App.tsx:932-936 | while recording, the session grows to cover every tick's time and the playhead is the last tick's |
| Playback.StoppedStaysStopped | App.tsx:927 | once playback has stopped, further ticks change nothing |
| Playback.RecordToggle | App.tsx:444-486 | stopping stops the engine, drops both flags, loads the take as the vocal and sets the session to the longer buffer; starting without the microphone changes nothing, and with it plays from the playhead and raises both flags |
| Playback.RecordThenStop | App.tsx:444-486 | starting and stopping a recording lands on a silent, stopped mixer at the same playhead, with the take loaded and the offset unchanged |
| Playback.TogglePlay | App.tsx:415-440 | while recording it is the record stop; while playing it pauses; otherwise it raises the play flag, keeps the session length and the recording flag down, starts the instrumental from the old playhead and a loaded vocal from the old playhead less the offset (or 0), locks the two when both are loaded, and shows 0 when at or past the end |
| Playback.ReplayAtEndKeepsOldTime | App.tsx:434-439 | at the end, the display resets to 0 but the engine is exactly `play` from the old playhead, whatever the players did before, so the display and the engine disagree |
| Playback.PlayThenPause | App.tsx:415-440 | play then pause, inside the session, drops the play flag at the same playhead; the engine is silent exactly when the pause comes after the lookahead and, for a loaded vocal, after the part of the offset not yet played |
| Playback.ButtonsKeepSettled | App.tsx:415-486 | the record button keeps the play flag and the engine in step; the play button does when no start is pending, and its pause does exactly then |
| Export.Prepare | App.tsx:556-570 | a session of length 0 is refused and nothing changes; otherwise nothing plays or records and the playhead is 0; the engine is silent when the mixer was playing or recording, and when it was settled; after a quick pause a pending start survives |
| Export.Progress | App.tsx:588-589 | progress never exceeds 99, is non-negative for non-negative elapsed time, and is either 99 or elapsed/duration*100 |
| Export.ProgressMonotone | App.tsx:588-589 | progress never goes backwards |
| Export.ProgressAtCap | App.tsx:588-592 | progress reaches 99 at 99% of the session and stays below it before; when the timer finishes, it shows 99 |
| Export.Begin | App.tsx:575-581 | starting an export raises the flag and shows 0%; a loaded instrumental starts from 0, a loaded vocal from the part of the offset below 0 (or 0), and the two are locked when both are loaded |
| Export.TimerTick | App.tsx:587-590 | a timer run changes only the progress, which lies in [0, 99] |
| Export.FinishAudio | App.tsx:592-613 | the engine stops and the export flag drops; a file is downloaded exactly when the recording holds data |
| Export.FinishVideo | App.tsx:671-694 | an empty recording is reported as failed and only the export flag drops; otherwise the file is downloaded and the play flag drops as well; the engine is stopped |
| Export.TickIdleWhileExporting | App.tsx:927 | the playback tick stands still during an export |
| Export.AudioExportRun | App.tsx:572-615 | a whole audio export ends silent and stopped at playhead 0, shows 99%, with the flag down, and downloads exactly when data was recorded |

## Left out

- Signal processing: every filter, EQ, reverb, delay, pitch shift,
  compressor, gate and limiter, the node graph wired in the constructor, and
  the offline stem separation (`extractStems`). All of it runs inside Tone.js.
  `Engine.Init` models only the initial parameter values.
- Media I/O is not modelled. This covers decoding (`loadTrack` takes the
  decoded duration as input), the microphone and the recorders, `getMixStream`,
  MediaRecorder, Blob and object-URL creation, and the download anchor.
- `getCurrentTime` and `ensureAudioContext` are left out. They read or resume
  the realtime audio context.
- Clocks are inputs: `Tone.now()`, `Date.now()`, `setInterval`, `setTimeout`
  and `requestAnimationFrame`. The record button sets the session length at
  once; the source sets it 500 ms later.
- The catalogue request, the response mapping and the other network calls are
  left out. So is the YouTube link parser.
- Randomness is an input (`Math.random()` in shuffle), or is left out (ids,
  `isTrending`).
- The video export's canvas drawing, its image loading, and its early exit
  when no 2D context is available are left out.
- The music player's interaction with the mixer's play button is left out.
  `togglePlay` also pauses a playing music track.
- React state, effects and rendering are left out, as are
  components/Waveform.tsx, components/ThumbnailGen.tsx and
  components/Controls.tsx.
- A change of `playbackRate` while a player sounds is not rescheduled:
  `Engine.PlayedOut` computes the end of the buffer with the current rate
  from the last start.
- NaN and the infinities are not reals. `formatTime` takes an explicit
  `finite` flag, and samples that are NaN are not modelled.
- MusicSearch.SearchTerm: its contract states only that the term is
  non-empty and trimmed. What each input contributes is stated by
  `DefaultTerm`, `LanguageEndsTerm` and `MovieSongsTerm`.
- MusicQueue.Next: in shuffle mode it states only that the index lands inside
  the queue, for a `random` in [0, 1).
