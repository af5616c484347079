# Video recording service — Dafny model

A model of `VideoRecordingService` (`src/app/video-recording2.service.ts`), an
Angular service that runs one audio/video capture session at a time. It asks
the browser for a camera/microphone stream and binds a RecordRTC engine to it.
While recording, it publishes the elapsed time as `MM:SS` once a second. On
stop it publishes the finished blob under a title `video_<milliseconds>.avi`.

Files:

- `wrappers.dfy`: `Option`, which stands for the service's nullable fields.
- `time_format.dfy` (module `TimeFormat`): the pure part of the timer. It holds
  `toString` (zero-padding), the `MM:SS` label of a tick, the minute and second
  components of a millisecond duration, and decimal rendering with its inverse.
- `uri_encode.dfy` (module `UriEncode`): ECMAScript `encodeURIComponent` over
  Unicode scalar values (percent-encoded UTF-8) and the output title built from it.
- `recording_service.dfy` (module `RecordingService`): the class
  `VideoRecordingService`. It has the four session fields `stream`, `recorder`,
  `interval` and `startTime` as `Option`s. The three RxJS Subjects are
  append-only logs: `recorded`, `recordingTime` and `recordingFailed`. A few
  fields record what the service causes outside itself: device requests issued
  and outstanding, live interval timers, released streams, and recorders asked
  to stop. The asynchronous outcomes are methods the environment calls:
  `AcquisitionSucceeded`, `AcquisitionFailed`, `Tick` and `RecorderStopped`.
  `Valid()` is the object invariant. `stream`, `recorder` and `startTime` are
  set together or cleared together. The timer of a running session is live. A
  stopped session's timer is not.
- `scenarios.dfy` (module `Scenarios`): client methods that replay whole
  sessions. They are proved from the service's contracts alone.

In the following places the code behaves differently from what a strict
single-session service would do. The model follows the code:

- **The start guard tests only `recorder`.** A strict single-session service
  would not issue a second device request. In the code, `recorder` is still null
  while a request is outstanding. So a second `startRecording` publishes
  another "00:00" and issues another request. If both requests are granted,
  `record` runs twice. The first engine, stream and timer are overwritten
  without being released, and that timer is never cleared
  (`AcquisitionSucceeded`, `Scenarios.DoubleStart`).
- **Abort while a request is outstanding does nothing.** The grant that
  follows still starts a session (`Scenarios.AbortDuringAcquisition`).
- **`stopMedia` clears the timer but leaves the `interval` field set.** The
  field keeps the cleared handle. "Cancelled" means the handle is no longer in
  `liveTimers`.
- **Zero renders correctly.** `toString(0)` is `"00"`. The `!value` test
  treats zero like a missing value, but the `'0' + value` branch that follows
  it also applies to zero, so the result is still correct.
- **A late engine callback reads the current recorder.** The stop callback
  reads `this.recorder` when it runs, not the recorder that was asked to stop.
  If the session was aborted and no new session has started since,
  `this.recorder.getBlob()` throws on the null recorder and nothing is
  published; the model leaves the state unchanged
  (`Scenarios.AbortBeforeFinish`). If a new session was started and granted
  in the meantime, the old engine's callback tears down the new session and
  publishes an output for it (`Scenarios.StaleCallbackAfterRestart`). So a
  result arriving after an abort is not always discarded.

## Model

| member | source | states |
|---|---|---|
| `TimeFormat.Decimal` | src/app/video-recording2.service.ts:78 | a number's decimal rendering is a non-empty digit string, it has no leading zero unless the number is zero, and it is one character exactly below ten |
| `TimeFormat.DecimalRoundTrip` | src/app/video-recording2.service.ts:103 | reading the decimal rendering back gives the number, so the rendering loses nothing |
| `TimeFormat.ToStringSmall` | src/app/video-recording2.service.ts:85-94 | `toString` of 0 is "00"; a value from 1 to 9 is "0" followed by its digit |
| `TimeFormat.ToStringLarge` | src/app/video-recording2.service.ts:86-93 | from 10 upwards `toString` leaves the value unchanged (its plain decimal digits), which read back as the value |
| `TimeFormat.ToStringTwoDigits` | src/app/video-recording2.service.ts:85-94 | below 100 the result is exactly two digits that read back as the value |
| `TimeFormat.Minutes` | src/app/video-recording2.service.ts:77-78 | the minutes component of a duration is the number of whole minutes within the current hour (so below 60) |
| `TimeFormat.Seconds` | src/app/video-recording2.service.ts:77-78 | the seconds component of a duration is the number of whole seconds within the current minute (so below 60) |
| `TimeFormat.TimeLabelShape` | src/app/video-recording2.service.ts:76-79 | for components in 0..59 the tick label has 5 characters, with digits around a colon at index 2, and reads back as the two components |
| `TimeFormat.TimeLabelInjective` | src/app/video-recording2.service.ts:78 | different minute/second pairs give different labels |
| `TimeFormat.ElapsedLabelShape` | src/app/video-recording2.service.ts:75-79 | every tick label is `MM:SS` and reads back as the elapsed minutes and seconds, wrapping at the hour; under one second it is "00:00" |
| `UriEncode.Utf8` | src/app/video-recording2.service.ts:103 | a code point encodes to 1 to 4 bytes, and to a single byte equal to itself exactly when it is ASCII |
| `UriEncode.Percent` | src/app/video-recording2.service.ts:103 | one byte becomes `%` and two upper-case hex digits whose value is the byte |
| `UriEncode.PercentAll` | src/app/video-recording2.service.ts:103 | percent-encoding bytes yields three characters per byte, each a `%` or an unescaped character |
| `UriEncode.PercentAllRoundTrip` | src/app/video-recording2.service.ts:103 | the percent-encoded triples read back as exactly the encoded bytes |
| `UriEncode.EncodePlain` | src/app/video-recording2.service.ts:103 | `encodeURIComponent` leaves a string of unescaped characters unchanged |
| `UriEncode.EncodeLength` | src/app/video-recording2.service.ts:103 | encoding never shortens a string, and any escaped character makes it at least two characters longer |
| `UriEncode.EncodeIdentityIff` | src/app/video-recording2.service.ts:103 | encoding leaves a string unchanged if and only if every character is unescaped |
| `UriEncode.EncodeOutputSafe` | src/app/video-recording2.service.ts:103 | the encoded string contains only unescaped characters and `%` |
| `UriEncode.TitleIsPlain` | src/app/video-recording2.service.ts:103 | the output title equals "video_" + decimal(ms) + ".avi", and the timestamp reads back from it |
| `RecordingService.VideoRecordingService.constructor` | src/app/video-recording2.service.ts:16-22 | a new service has no session, empty channels, no requests and no timers |
| `RecordingService.VideoRecordingService.StartRecording` | src/app/video-recording2.service.ts:38-59 | with a recorder set, nothing is published and no request is issued; otherwise "00:00" is appended to the time log and exactly one device request is issued |
| `RecordingService.VideoRecordingService.AcquisitionSucceeded` | src/app/video-recording2.service.ts:53-55 | a grant sets the stream, a recorder bound to it, the start time and a fresh live timer; a session that already existed is overwritten and its timer stays live |
| `RecordingService.VideoRecordingService.Record` | src/app/video-recording2.service.ts:65-83 | binds a recorder to the held stream, notes the start time and schedules one new timer |
| `RecordingService.VideoRecordingService.AcquisitionFailed` | src/app/video-recording2.service.ts:56-58 | a refusal appends exactly one failure notification and changes no session field |
| `RecordingService.VideoRecordingService.Tick` | src/app/video-recording2.service.ts:75-80 | a tick appends the `MM:SS` label of the time elapsed since the start, and nothing else |
| `RecordingService.VideoRecordingService.StopMedia` | src/app/video-recording2.service.ts:115-125 | with a recorder set: recorder, start time and stream become null, the timer is cleared and the stream is released; with none, nothing changes; so a second call changes nothing |
| `RecordingService.VideoRecordingService.AbortRecording` | src/app/video-recording2.service.ts:61-63 | exactly the effect of `stopMedia` |
| `RecordingService.VideoRecordingService.StopRecording` | src/app/video-recording2.service.ts:96-98 | with a recorder set, asks that recorder to stop; with none, does nothing |
| `RecordingService.VideoRecordingService.RecorderStopped` | src/app/video-recording2.service.ts:99-106 | on the engine's callback with a session running, tears the session down and appends exactly one output titled "video_" + decimal(now) + ".avi"; with no session, nothing is published |
| `Scenarios.TicksAfterStart` | src/app/video-recording2.service.ts:45-79 | start and a grant at t=0, then ticks at 1 s and 2 s, publish "00:00", "00:01", "00:02" |
| `Scenarios.FailureThenRetry` | src/app/video-recording2.service.ts:45-58 | a refused start publishes one failure and only "00:00"; a following start records normally |
| `Scenarios.StopAfterRecording` | src/app/video-recording2.service.ts:96-125 | a full session publishes one titled output, releases its stream and leaves no timer running |
| `Scenarios.StopWhenIdle` | src/app/video-recording2.service.ts:96-98 | stop on an idle service publishes nothing on any channel |
| `Scenarios.AbortBeforeFinish` | src/app/video-recording2.service.ts:99-106 | an abort between the stop request and the engine's callback, with no new session started since, means the callback publishes nothing |
| `Scenarios.StaleCallbackAfterRestart` | src/app/video-recording2.service.ts:96-125 | after stop, abort, a new start and grant, the old engine's callback ends the new session and publishes one output |
| `Scenarios.AbortDuringAcquisition` | src/app/video-recording2.service.ts:40-63 | an abort while the request is outstanding is a no-op, and the grant then starts a session |
| `Scenarios.DoubleStart` | src/app/video-recording2.service.ts:40-82 | two starts before the device answers issue two requests, and after two grants and an abort one timer is still live |
| `Scenarios.AbortTwice` | src/app/video-recording2.service.ts:115-125 | aborting twice has exactly the effect of aborting once |

## Left out

- Device acquisition (`navigator.mediaDevices.getUserMedia`) is asynchronous browser I/O. It becomes a counter of issued and outstanding requests plus the two outcome methods. The stream is an opaque identifier.
- The RecordRTC engine is a foreign library: its construction, `record()`, `stopRecording` and `getBlob`. A recorder is a value bound to its stream. A stop request is a log entry. The blob is an opaque value passed to `RecorderStopped`.
- AcquisitionSucceeded: assumes that constructing the RecordRTC engine and its `record()` never throw. The `.catch` on the device request also catches a throw from `record()`. If construction throws, the source publishes a failure with `stream` set and `recorder` unchanged (null on a first grant). That stream is then never released, because `stopMedia` does nothing without a recorder. If `record()` throws, `recorder` is set without a new start time or timer. On a first grant `startTime` stays null, so a later stop callback publishes nothing. Both states break the "set together" invariant, and neither path is modelled.
- The completion callback is a non-arrow `function`. The model assumes the engine calls it with `this` bound to the service. Otherwise the callback would not see the service's fields.
- Wall-clock time, `setInterval`/`clearInterval` scheduling and `moment` arithmetic are not modelled as such. Clock readings are parameters: the start time in `AcquisitionSucceeded`, the tick time in `Tick`, and `new Date().getTime()` in `RecorderStopped`. Timers are handles in a set of live timers. A duration's components are `(d / 60000) % 60` and `(d / 1000) % 60`, so minutes wrap at an hour as `moment.duration().minutes()` does.
- Tick: modelled only while a start time is set and the clock has not gone backwards. A leaked timer can fire after a stop, when `startTime` is null. What `moment` then computes from the null start is not modelled.
- The order between the teardown and the emission inside the stop callback is not modelled. Both happen within one method, and the contract states the state after both.
- RxJS `Subject`/`Observable` plumbing and Angular dependency injection: the three getter methods only expose the Subjects. Each channel is the sequence of everything emitted on it.
- Track-level release: the source stops only the audio tracks of the stream. The model records only that the stream was released.
- The commented-out code in the source is not modelled.
