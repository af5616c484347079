/** The single-session video recording service: four nullable fields hold the
    session, three append-only logs stand for the published channels, and the
    asynchronous outcomes (device acquisition, the engine's finish callback,
    timer ticks) are methods the environment calls. */
module RecordingService {
  import opened Wrappers
  import opened TimeFormat
  import opened UriEncode

  /** A capture stream handed over by the device; opaque apart from its identity. */
  datatype Stream = Stream(id: nat)

  /** A recording engine instance bound to the stream it records. */
  datatype Recorder = Recorder(stream: Stream)

  /** The finished recording's payload, produced by the engine; opaque. */
  datatype Blob = Blob(id: nat)

  /** One completed recording as published on the output channel. */
  datatype RecordedVideoOutput = RecordedVideoOutput(blob: Blob, title: string)

  /** The handle `setInterval` returns. */
  type TimerId = nat

  class VideoRecordingService {
    // The session.
    var stream: Option<Stream>
    var recorder: Option<Recorder>
    var interval: Option<TimerId>
    var startTime: Option<nat>

    // The three published channels, as everything ever emitted on them.
    var recorded: seq<RecordedVideoOutput>
    var recordingTime: seq<string>
    var recordingFailed: seq<()>

    // What the service has caused outside itself.
    /** Device requests issued so far, and how many of them are still outstanding. */
    var acquisitionRequests: nat
    var pendingAcquisitions: nat
    /** Timers scheduled and not cleared, and the next handle to be handed out. */
    var liveTimers: set<TimerId>
    var nextTimer: TimerId
    /** Streams whose tracks were stopped, in order. */
    var releasedStreams: seq<Stream>
    /** Recorders asked to stop, in order. */
    var stopRequests: seq<Recorder>

    /** The session fields are set together or cleared together, the timer of a
        running session is live, and the timer of a finished one is not. */
    ghost predicate Valid()
      reads this
    {
      stream.Some? == recorder.Some? && recorder.Some? == startTime.Some? &&
      (recorder.Some? ==>
        recorder.value.stream == stream.value &&
        interval.Some? && interval.value in liveTimers) &&
      (recorder.None? ==> interval.None? || interval.value !in liveTimers) &&
      (interval.Some? ==> interval.value < nextTimer) &&
      (forall t | t in liveTimers :: t < nextTimer) &&
      pendingAcquisitions <= acquisitionRequests
    }

    /** True while a session holds the device and the engine. */
    predicate IsRecording()
      reads this
    {
      recorder.Some?
    }

    constructor ()
      ensures Valid() && !IsRecording()
      ensures stream.None? && recorder.None? && interval.None? && startTime.None?
      ensures recorded == [] && recordingTime == [] && recordingFailed == []
      ensures acquisitionRequests == 0 && pendingAcquisitions == 0
      ensures liveTimers == {} && releasedStreams == [] && stopRequests == []
    {
      stream, recorder, interval, startTime := None, None, None, None;
      recorded, recordingTime, recordingFailed := [], [], [];
      acquisitionRequests, pendingAcquisitions := 0, 0;
      liveTimers, nextTimer := {}, 0;
      releasedStreams, stopRequests := [], [];
    }

    /** `startRecording`: ignored while a recorder exists; otherwise publishes
        "00:00" and asks the device for a stream. Only `recorder` is looked at,
        so a call while an earlier request is still outstanding asks again. */
    method StartRecording()
      requires Valid()
      modifies this`recordingTime, this`acquisitionRequests, this`pendingAcquisitions
      ensures Valid()
      ensures old(IsRecording()) ==>
        recordingTime == old(recordingTime) &&
        acquisitionRequests == old(acquisitionRequests) &&
        pendingAcquisitions == old(pendingAcquisitions)
      ensures !old(IsRecording()) ==>
        recordingTime == old(recordingTime) + ["00:00"] &&
        acquisitionRequests == old(acquisitionRequests) + 1 &&
        pendingAcquisitions == old(pendingAcquisitions) + 1
    {
      if recorder.Some? {
        return;
      }
      recordingTime := recordingTime + ["00:00"];
      acquisitionRequests := acquisitionRequests + 1;
      pendingAcquisitions := pendingAcquisitions + 1;
    }

    /** The device granted stream `s` at wall-clock time `now`: the stream is
        kept and `record` binds an engine to it, notes the start time and
        schedules the one-second tick. A session that already existed (two
        requests both granted) is overwritten, and its timer stays live. */
    method AcquisitionSucceeded(s: Stream, now: nat)
      requires Valid() && pendingAcquisitions > 0
      modifies this`stream, this`recorder, this`startTime, this`interval,
        this`liveTimers, this`nextTimer, this`pendingAcquisitions
      ensures Valid() && IsRecording()
      ensures stream == Some(s) && recorder == Some(Recorder(s)) && startTime == Some(now)
      ensures interval.Some? && interval.value !in old(liveTimers)
      ensures liveTimers == old(liveTimers) + {interval.value}
      ensures pendingAcquisitions == old(pendingAcquisitions) - 1
      ensures old(IsRecording()) ==> old(interval).value in liveTimers
    {
      pendingAcquisitions := pendingAcquisitions - 1;
      stream := Some(s);
      Record(now);
    }

    /** `record`: binds an engine to the held stream, notes the start time
        (the clock reading `now`) and schedules the tick. */
    method Record(now: nat)
      requires stream.Some?
      requires (interval.Some? ==> interval.value < nextTimer) && forall t | t in liveTimers :: t < nextTimer
      modifies this`recorder, this`startTime, this`interval, this`liveTimers, this`nextTimer
      ensures recorder == Some(Recorder(stream.value))
      ensures startTime == Some(now)
      ensures interval == Some(old(nextTimer)) && nextTimer == old(nextTimer) + 1
      ensures liveTimers == old(liveTimers) + {old(nextTimer)}
      ensures forall t | t in liveTimers :: t < nextTimer
    {
      recorder := Some(Recorder(stream.value));
      startTime := Some(now);
      interval := Some(nextTimer);
      liveTimers := liveTimers + {nextTimer};
      nextTimer := nextTimer + 1;
    }

    /** The device refused: one failure notification and nothing else changes. */
    method AcquisitionFailed()
      requires Valid() && pendingAcquisitions > 0
      modifies this`recordingFailed, this`pendingAcquisitions
      ensures Valid()
      ensures recordingFailed == old(recordingFailed) + [()]
      ensures pendingAcquisitions == old(pendingAcquisitions) - 1
    {
      pendingAcquisitions := pendingAcquisitions - 1;
      recordingFailed := recordingFailed + [()];
    }

    /** The tick at wall-clock time `now`: publishes the `MM:SS` label of the
        time elapsed since the start. */
    method Tick(now: nat)
      requires Valid() && startTime.Some? && now >= startTime.value
      modifies this`recordingTime
      ensures Valid()
      ensures recordingTime == old(recordingTime) + [ElapsedLabel(now - startTime.value)]
    {
      var elapsed := now - startTime.value;
      var time := ToString(Minutes(elapsed)) + ":" + ToString(Seconds(elapsed));
      recordingTime := recordingTime + [time];
    }

    /** `stopMedia`: with a recorder, drops it, clears the timer, forgets the
        start time and releases the stream; without one, does nothing. The
        `interval` field keeps the cleared handle. */
    method StopMedia()
      requires Valid()
      modifies this`recorder, this`startTime, this`stream, this`liveTimers, this`releasedStreams
      ensures Valid() && !IsRecording()
      ensures stream.None? && startTime.None?
      ensures old(IsRecording()) ==>
        liveTimers == old(liveTimers) - {interval.value} &&
        releasedStreams == old(releasedStreams) + [old(stream).value]
      ensures !old(IsRecording()) ==>
        liveTimers == old(liveTimers) && releasedStreams == old(releasedStreams)
    {
      if recorder.Some? {
        recorder := None;
        liveTimers := liveTimers - {interval.value};
        startTime := None;
        if stream.Some? {
          releasedStreams := releasedStreams + [stream.value];
          stream := None;
        }
      }
    }

    /** `abortRecording`: exactly `stopMedia`. */
    method AbortRecording()
      requires Valid()
      modifies this`recorder, this`startTime, this`stream, this`liveTimers, this`releasedStreams
      ensures Valid() && !IsRecording()
      ensures stream.None? && startTime.None?
      ensures old(IsRecording()) ==>
        liveTimers == old(liveTimers) - {interval.value} &&
        releasedStreams == old(releasedStreams) + [old(stream).value]
      ensures !old(IsRecording()) ==>
        liveTimers == old(liveTimers) && releasedStreams == old(releasedStreams)
    {
      StopMedia();
    }

    /** `stopRecording`: with a recorder, asks it to stop; the rest happens when
        it calls back (`RecorderStopped`). Without one, does nothing. */
    method StopRecording()
      requires Valid()
      modifies this`stopRequests
      ensures Valid()
      ensures stopRequests == if old(IsRecording()) then old(stopRequests) + [recorder.value]
                              else old(stopRequests)
    {
      if recorder.Some? {
        stopRequests := stopRequests + [recorder.value];
      }
    }

    /** The engine's stop callback at wall-clock time `now`, with `blob` the
        recording it hands back. If the session was already torn down, reading
        the blob from the missing recorder throws and nothing is published.
        Otherwise the session is torn down and one output titled
        `video_<now>.avi` is published. */
    method RecorderStopped(blob: Blob, now: nat)
      requires Valid()
      modifies this`recorder, this`startTime, this`stream, this`liveTimers,
        this`releasedStreams, this`recorded
      ensures Valid() && !IsRecording()
      ensures !old(IsRecording()) ==>
        recorded == old(recorded) && stream == old(stream) && startTime == old(startTime) &&
        liveTimers == old(liveTimers) && releasedStreams == old(releasedStreams)
      ensures old(IsRecording()) ==>
        stream.None? && startTime.None? &&
        liveTimers == old(liveTimers) - {interval.value} &&
        releasedStreams == old(releasedStreams) + [old(stream).value] &&
        recorded == old(recorded) + [RecordedVideoOutput(blob, "video_" + Decimal(now) + ".avi")]
    {
      if recorder.None? {
        return;
      }
      if startTime.Some? {
        var title := Title(now);
        StopMedia();
        TitleIsPlain(now);
        recorded := recorded + [RecordedVideoOutput(blob, title)];
      }
    }
  }
}
