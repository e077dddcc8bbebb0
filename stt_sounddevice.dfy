/** The sounddevice recorder. The stream's callback appends every block it
    receives to a shared list; `record_audio` polls that list once per
    block period and runs the silence detector on its latest block only.
    Manual recording appends blocks to a field while the flag is set. The
    device is described by the blocks the callback receives and by how many
    of them have arrived at each polling tick. */
module SttSoundDevice {
  import opened Pcm
  import opened Wav
  import opened Wrappers
  import opened Detector
  import opened Audio

  /** `blocksize=1024`, hard-wired in both streams. */
  const BlockSize: nat := 1024

  /** What each polling tick sees: nothing while the list is empty, else the
      loudness of `frames[-1]`, where `seen[t]` blocks have arrived by tick t. */
  function TickObservations(captured: seq<Frame>, seen: seq<nat>, threshold: int): (r: seq<Option<bool>>)
    requires forall t :: 0 <= t < |seen| ==> seen[t] <= |captured|
    ensures |r| == |seen|
  {
    seq(|seen|, t requires 0 <= t < |seen| =>
      if seen[t] == 0 then None else Some(IsLoud(captured[seen[t] - 1], threshold)))
  }

  /** On blocks without a -32768 sample, each tick's verdict is the one
      numpy's wrapping `abs` gives. */
  lemma TickObservationsMatchAsWritten(captured: seq<Frame>, seen: seq<nat>, threshold: int)
    requires forall t :: 0 <= t < |seen| ==> seen[t] <= |captured|
    requires forall i, j :: 0 <= i < |captured| && 0 <= j < |captured[i]| ==> captured[i][j] != -0x8000
    ensures forall t :: 0 <= t < |seen| && seen[t] > 0 ==>
      TickObservations(captured, seen, threshold)[t] == Some(IsLoudAsWritten(captured[seen[t] - 1], threshold))
  {
    forall t | 0 <= t < |seen| && seen[t] > 0
      ensures TickObservations(captured, seen, threshold)[t] == Some(IsLoudAsWritten(captured[seen[t] - 1], threshold))
    {
      AsWrittenAgreesWithoutMinimum(captured[seen[t] - 1], threshold);
    }
  }

  /** The polling loop of `record_audio`: at each of `totalChunks` ticks look
      at the latest block, if any, and stop, invoking `on_stop_callback`,
      when the silence rule fires. The callback is invoked exactly when the
      detector run over the ticks' observations ends by silence. */
  method PollTicks(captured: seq<Frame>, seen: seq<nat>, threshold: int, silenceChunksThreshold: nat, totalChunks: nat)
    returns (stopCallbackInvoked: bool)
    requires totalChunks <= |seen|
    requires forall t :: 0 <= t < |seen| ==> seen[t] <= |captured|
    ensures stopCallbackInvoked <==>
      PollRun(Initial, TickObservations(captured, seen, threshold), silenceChunksThreshold, totalChunks).SilenceStop?
  {
    ghost var ticks := TickObservations(captured, seen, threshold);
    ghost var run := PollRun(Initial, ticks, silenceChunksThreshold, totalChunks);
    var silenceChunks: nat := 0;
    var startedSpeaking := false;
    stopCallbackInvoked := false;
    var i := 0;
    while i < totalChunks
      invariant i <= totalChunks && !stopCallbackInvoked
      invariant run == Shift(PollRun(DetectorState(startedSpeaking, silenceChunks), ticks[i..], silenceChunksThreshold, totalChunks - i), i)
    {
      // sd.sleep: meanwhile the callback has appended seen[i] blocks in all
      var arrived := seen[i];
      ghost var before := DetectorState(startedSpeaking, silenceChunks);
      if arrived > 0 {
        var loud := IsLoud(captured[arrived - 1], threshold);
        assert ticks[i] == Some(loud);
        if loud {
          startedSpeaking := true;
          silenceChunks := 0;
        } else if startedSpeaking {
          silenceChunks := silenceChunks + 1;
        }
      }
      PollLoopAdvance(run, before, DetectorState(startedSpeaking, silenceChunks), ticks, i, silenceChunksThreshold, totalChunks);
      if arrived > 0 && startedSpeaking && silenceChunks > silenceChunksThreshold {
        stopCallbackInvoked := true;
        break;
      }
      i := i + 1;
    }
  }

  /** How the wait for Enter in `manual_listen_and_transcribe` ends. */
  datatype InputEvent = EnterPressed | Interrupted

  class WhisperStt {
    const config: AudioConfig
    var isRecording: bool
    var recordingFrames: seq<Frame>
    /** Never assigned by the constructor: `Unset` until the first stream
        is created. */
    var recordingStream: StreamHandle

    constructor (sampleRate: nat, channels: nat, silenceThreshold: int, silenceDurationMs: nat)
      requires ValidFormat(channels, sampleRate)
      ensures config == AudioConfig(sampleRate, channels, BlockSize, silenceThreshold, silenceDurationMs)
      ensures ValidConfig(config)
      ensures !isRecording && recordingFrames == [] && recordingStream == Unset
    {
      config := AudioConfig(sampleRate, channels, BlockSize, silenceThreshold, silenceDurationMs);
      isRecording := false;
      recordingFrames := [];
      recordingStream := Unset;
    }

    function SilenceChunks(): nat
      reads this
      requires ValidConfig(config)
    {
      ChunkCount(config.silenceDurationMs, config.sampleRate, BlockSize)
    }

    function TotalTicks(maxDurationSecs: nat): nat
      reads this
      requires ValidConfig(config)
    {
      ChunkCount(maxDurationSecs * 1000, config.sampleRate, BlockSize)
    }

    /** `record_audio`: `captured` is every block the callback appended
        before the stream closed and `seen[t]` how many of them had arrived
        at tick t. The loop runs at most `TotalTicks` ticks; it stops early,
        invoking `on_stop_callback`, exactly when the silence rule fires on
        the ticks' observations. The result is the WAV of all captured
        blocks in order, with an empty data chunk if none arrived. */
    method RecordAudio(captured: seq<Frame>, seen: seq<nat>, maxDurationSecs: nat)
      returns (result: Result<Bytes, AudioError>, stopCallbackInvoked: bool)
      requires ValidConfig(config)
      requires TotalTicks(maxDurationSecs) <= |seen|
      requires forall t :: 0 <= t < |seen| ==> seen[t] <= |captured|
      ensures var e := PollRun(Initial, TickObservations(captured, seen, config.silenceThreshold), SilenceChunks(), TotalTicks(maxDurationSecs));
        stopCallbackInvoked <==> e.SilenceStop?
      ensures result == WavResult(config, SamplesToBytes(Flatten(captured)))
    {
      var silenceChunksThreshold := ChunkCount(config.silenceDurationMs, config.sampleRate, BlockSize);
      var totalChunks := ChunkCount(maxDurationSecs * 1000, config.sampleRate, BlockSize);
      stopCallbackInvoked := PollTicks(captured, seen, config.silenceThreshold, silenceChunksThreshold, totalChunks);
      if captured == [] {
        result := FramesToWav(config, []);
      } else {
        result := FramesToWav(config, SamplesToBytes(Flatten(captured)));
      }
    }

    /** `start_recording`: a no-op while recording; otherwise set the flag,
        empty the buffer and create and start the stream. If the stream
        cannot be created the exception escapes with the flag already set
        and the stream field untouched. */
    method StartRecording(deviceOk: bool) returns (outcome: Outcome<AudioError>)
      modifies this`isRecording, this`recordingFrames, this`recordingStream
      ensures old(isRecording) ==>
        outcome == Pass && isRecording && recordingFrames == old(recordingFrames) && recordingStream == old(recordingStream)
      ensures !old(isRecording) ==> isRecording && recordingFrames == []
      ensures !old(isRecording) && deviceOk ==> outcome == Pass && recordingStream == Running
      ensures !old(isRecording) && !deviceOk ==> outcome == Fail(DeviceUnavailable) && recordingStream == old(recordingStream)
    {
      if isRecording {
        return Pass;
      }
      isRecording := true;
      recordingFrames := [];
      if !deviceOk {
        return Fail(DeviceUnavailable);
      }
      recordingStream := Running;
      outcome := Pass;
    }

    /** The stream callback of manual recording: append the block only
        while the flag is set. */
    method RecordingCallback(inData: Frame)
      modifies this`recordingFrames
      ensures recordingFrames == if isRecording then old(recordingFrames) + [inData] else old(recordingFrames)
    {
      if isRecording {
        recordingFrames := recordingFrames + [inData];
      }
    }

    /** `stop_recording`: `None` if not recording. Otherwise the flag is
        cleared and the stream stopped, closed and dropped; an empty buffer
        gives `None`, and a non-empty one is emptied and returned as the WAV
        of its blocks concatenated in order. If the stream field was never
        assigned, reading it raises once the flag is cleared. */
    method StopRecording() returns (wav: Result<Option<Bytes>, AudioError>)
      requires ValidConfig(config)
      modifies this`isRecording, this`recordingFrames, this`recordingStream
      ensures !old(isRecording) ==> wav == Success(None) && unchanged(this)
      ensures old(isRecording) && old(recordingStream) == Unset ==>
        wav == Failure(StreamAttributeMissing) && !isRecording &&
        recordingFrames == old(recordingFrames) && recordingStream == Unset
      ensures old(isRecording) && old(recordingStream) != Unset ==>
        !isRecording && recordingStream == NoStream && recordingFrames == [] &&
        wav == if old(recordingFrames) == [] then Success(None) else
          match WavResult(config, SamplesToBytes(Flatten(old(recordingFrames))))
          case Success(bytes) => Success(Some(bytes))
          case Failure(e) => Failure(e)
    {
      if !isRecording {
        return Success(None);
      }
      isRecording := false;
      if recordingStream == Unset {
        return Failure(StreamAttributeMissing);
      }
      if recordingStream != NoStream {
        // stop() and close()
        recordingStream := NoStream;
      }
      if recordingFrames == [] {
        return Success(None);
      }
      var audioData := Flatten(recordingFrames);
      recordingFrames := [];
      var packaged := FramesToWav(config, SamplesToBytes(audioData));
      wav := match packaged
        case Success(bytes) => Success(Some(bytes))
        case Failure(e) => Failure(e);
    }

    /** The end of `manual_listen_and_transcribe` once the console wait is
        over. An interrupt clears the flag, stops and closes the stream
        (leaving the closed object in the field and the buffer as it was),
        yields no audio and does not invoke `on_stop_callback`. Enter stops
        the recording and, unless that raised, invokes `on_stop_callback`
        and yields the audio for transcription. */
    method ManualListenEnd(event: InputEvent) returns (audio: Result<Option<Bytes>, AudioError>, stopCallbackInvoked: bool)
      requires ValidConfig(config)
      modifies this`isRecording, this`recordingFrames, this`recordingStream
      ensures event == Interrupted ==>
        !isRecording && !stopCallbackInvoked && recordingFrames == old(recordingFrames) &&
        (old(recordingStream) == Unset ==> audio == Failure(StreamAttributeMissing) && recordingStream == Unset) &&
        (old(recordingStream) != Unset ==>
          audio == Success(None) &&
          recordingStream == if old(recordingStream) == NoStream then NoStream else Closed)
      ensures event == EnterPressed ==>
        (stopCallbackInvoked <==> audio.Success?) &&
        (!old(isRecording) ==> audio == Success(None) && unchanged(this)) &&
        (old(isRecording) ==> !isRecording)
      ensures event == EnterPressed && old(isRecording) && old(recordingStream) == Unset ==>
        audio == Failure(StreamAttributeMissing) && !stopCallbackInvoked &&
        recordingFrames == old(recordingFrames) && recordingStream == Unset
      ensures event == EnterPressed && old(isRecording) && old(recordingStream) != Unset ==>
        recordingStream == NoStream && recordingFrames == [] &&
        audio == if old(recordingFrames) == [] then Success(None) else
          match WavResult(config, SamplesToBytes(Flatten(old(recordingFrames))))
          case Success(bytes) => Success(Some(bytes))
          case Failure(e) => Failure(e)
    {
      if event == Interrupted {
        isRecording := false;
        if recordingStream == Unset {
          return Failure(StreamAttributeMissing), false;
        }
        if recordingStream != NoStream {
          // stop() and close(); the field keeps the closed stream
          recordingStream := Closed;
        }
        return Success(None), false;
      }
      audio := StopRecording();
      stopCallbackInvoked := audio.Success?;
    }

    /** `cleanup`: stop a recording in progress; an error raised by the stop
        escapes. */
    method Cleanup() returns (outcome: Outcome<AudioError>)
      requires ValidConfig(config)
      modifies this`isRecording, this`recordingFrames, this`recordingStream
      ensures !isRecording
      ensures !old(isRecording) ==> outcome == Pass && unchanged(this)
      ensures old(isRecording) && old(recordingStream) == Unset ==>
        outcome == Fail(StreamAttributeMissing) &&
        recordingFrames == old(recordingFrames) && recordingStream == old(recordingStream)
      ensures old(isRecording) && old(recordingStream) != Unset ==>
        recordingFrames == [] && recordingStream == NoStream &&
        (outcome == Pass || outcome == Fail(WavTooLarge)) &&
        (outcome.Fail? <==> old(recordingFrames) != [] && !FitsInWav(|SamplesToBytes(Flatten(old(recordingFrames)))|))
    {
      if isRecording {
        var stopped := StopRecording();
        if stopped.Failure? {
          return Fail(stopped.error);
        }
      }
      outcome := Pass;
    }
  }
}
