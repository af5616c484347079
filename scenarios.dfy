/** Clients of the service that replay whole sessions and state what the
    callers observe on the three channels, using only the service's contracts. */
module Scenarios {
  import opened Wrappers
  import opened TimeFormat
  import opened RecordingService

  /** Start, acquisition granted at t = 0, ticks at 1 s and 2 s. */
  method TicksAfterStart() returns (times: seq<string>)
    ensures times == ["00:00", "00:01", "00:02"]
  {
    var svc := new VideoRecordingService();
    svc.StartRecording();
    svc.AcquisitionSucceeded(Stream(0), 0);
    svc.Tick(1000);
    svc.Tick(2000);
    assert Minutes(1000) == 0 && Seconds(1000) == 1 && Minutes(2000) == 0 && Seconds(2000) == 2;
    assert ToString(0) == "00" && ToString(1) == "01" && ToString(2) == "02";
    assert ElapsedLabel(1000) == "00:01" && ElapsedLabel(2000) == "00:02";
    times := svc.recordingTime;
  }

  /** Start, acquisition refused: one failure and only the initial label;
      a second start then asks the device again and can record. */
  method FailureThenRetry() returns (failures: nat, timesAfterFailure: seq<string>, recording: bool)
    ensures failures == 1 && timesAfterFailure == ["00:00"] && recording
  {
    var svc := new VideoRecordingService();
    svc.StartRecording();
    svc.AcquisitionFailed();
    failures, timesAfterFailure := |svc.recordingFailed|, svc.recordingTime;
    svc.StartRecording();
    svc.AcquisitionSucceeded(Stream(1), 0);
    recording := svc.IsRecording();
  }

  /** Start, record, stop at time `now`: one output titled with `now`, the
      stream released and no timer left running. */
  method StopAfterRecording(start: nat, now: nat, blob: Blob)
    returns (outputs: seq<RecordedVideoOutput>, released: seq<Stream>, timers: set<TimerId>)
    ensures outputs == [RecordedVideoOutput(blob, "video_" + Decimal(now) + ".avi")]
    ensures released == [Stream(7)] && timers == {}
  {
    var svc := new VideoRecordingService();
    svc.StartRecording();
    svc.AcquisitionSucceeded(Stream(7), start);
    svc.StopRecording();
    svc.RecorderStopped(blob, now);
    outputs, released, timers := svc.recorded, svc.releasedStreams, svc.liveTimers;
  }

  /** Stop on an idle service publishes nothing on any channel and asks no recorder to stop. */
  method StopWhenIdle() returns (outputs: seq<RecordedVideoOutput>, times: seq<string>, failures: seq<()>, stops: nat)
    ensures outputs == [] && times == [] && failures == [] && stops == 0
  {
    var svc := new VideoRecordingService();
    svc.StopRecording();
    outputs, times, failures, stops := svc.recorded, svc.recordingTime, svc.recordingFailed, |svc.stopRequests|;
  }

  /** Abort after stop was requested but before the engine called back, with
      no new session started since: the late callback publishes nothing. */
  method AbortBeforeFinish(blob: Blob, now: nat) returns (outputs: seq<RecordedVideoOutput>, timers: set<TimerId>)
    ensures outputs == [] && timers == {}
  {
    var svc := new VideoRecordingService();
    svc.StartRecording();
    svc.AcquisitionSucceeded(Stream(3), 0);
    svc.StopRecording();
    svc.AbortRecording();
    svc.RecorderStopped(blob, now);
    outputs, timers := svc.recorded, svc.liveTimers;
  }

  /** The stop callback reads whatever recorder is current when it runs. If
      the session is aborted and a new one is started before the old engine
      calls back, the late callback ends the new session and publishes an
      output for it. */
  method StaleCallbackAfterRestart(blob: Blob, now: nat)
    returns (outputs: seq<RecordedVideoOutput>, recording: bool, released: seq<Stream>, timers: set<TimerId>)
    ensures outputs == [RecordedVideoOutput(blob, "video_" + Decimal(now) + ".avi")]
    ensures !recording && released == [Stream(8), Stream(9)] && timers == {}
  {
    var svc := new VideoRecordingService();
    svc.StartRecording();
    svc.AcquisitionSucceeded(Stream(8), 0);
    svc.StopRecording();
    svc.AbortRecording();
    svc.StartRecording();
    svc.AcquisitionSucceeded(Stream(9), 0);
    svc.RecorderStopped(blob, now);
    outputs, recording := svc.recorded, svc.IsRecording();
    released, timers := svc.releasedStreams, svc.liveTimers;
  }

  /** Abort while the device request is outstanding does nothing: the grant
      that follows still starts a session. */
  method AbortDuringAcquisition() returns (recording: bool, timers: nat)
    ensures recording && timers == 1
  {
    var svc := new VideoRecordingService();
    svc.StartRecording();
    svc.AbortRecording();
    svc.AcquisitionSucceeded(Stream(4), 0);
    recording, timers := svc.IsRecording(), |svc.liveTimers|;
  }

  /** Two starts before the device answers issue two requests; when both are
      granted and the session is then aborted, the first timer is still live. */
  method DoubleStart() returns (requests: nat, leakedTimers: set<TimerId>)
    ensures requests == 2 && |leakedTimers| == 1
  {
    var svc := new VideoRecordingService();
    svc.StartRecording();
    svc.StartRecording();
    requests := svc.acquisitionRequests;
    svc.AcquisitionSucceeded(Stream(5), 0);
    var first := svc.interval.value;
    svc.AcquisitionSucceeded(Stream(6), 0);
    svc.AbortRecording();
    assert svc.liveTimers == {first};
    leakedTimers := svc.liveTimers;
  }

  /** Aborting twice leaves the service exactly as aborting once does. */
  method AbortTwice(svc: VideoRecordingService)
    requires svc.Valid()
    modifies svc`recorder, svc`startTime, svc`stream, svc`liveTimers, svc`releasedStreams
    ensures svc.Valid() && !svc.IsRecording()
    ensures old(svc.IsRecording()) ==>
      svc.liveTimers == old(svc.liveTimers) - {svc.interval.value} &&
      svc.releasedStreams == old(svc.releasedStreams) + [old(svc.stream).value]
    ensures !old(svc.IsRecording()) ==>
      svc.liveTimers == old(svc.liveTimers) && svc.releasedStreams == old(svc.releasedStreams)
  {
    svc.AbortRecording();
    svc.AbortRecording();
  }
}
